/**
 * The comment box of the comments page: tag wrapping of the selection, the
 * image size guard, and the guards and settlement of posting and editing.
 */
module CommentsPage {
  import opened Base
  import Text

  /** The textarea: its value and selection, with `0 <= start <= end <= |value|` as the DOM keeps them. */
  datatype TextArea = TextArea(value: string, start: nat, end: nat)

  predicate ValidSelection(ta: TextArea) {
    ta.start <= ta.end <= |ta.value|
  }

  /** `<${tag}>${sel}</${tag}>`. */
  function Wrapped(tag: string, sel: string): string {
    "<" + tag + ">" + sel + "</" + tag + ">"
  }

  /** The new text and the caret position `wrapSelection(tag)` produces. */
  datatype Wrap = Wrap(text: string, caret: nat)

  /**
   * `wrapSelection(tag)`: the selection (or the placeholder "text" when
   * nothing is selected) is wrapped in the tag; the text around it is kept and
   * the caret lands just after the closing tag. A missing textarea does nothing.
   */
  function WrapSelection(ta: Option<TextArea>, tag: string): (r: Option<Wrap>)
    requires ta.Some? ==> ValidSelection(ta.value)
    ensures ta.None? <==> r.None?
    ensures r.Some? ==>
      var t := ta.value;
      var sel := if t.start == t.end then "text" else t.value[t.start..t.end];
      |r.value.text| == |t.value| - (t.end - t.start) + |sel| + 2 * |tag| + 5
      && r.value.caret == t.start + |Wrapped(tag, sel)|
      && r.value.text[..t.start] == t.value[..t.start]
      && r.value.text[t.start..r.value.caret] == Wrapped(tag, sel)
      && r.value.text[r.value.caret..] == t.value[t.end..]
  {
    match ta
    case None => None
    case Some(t) =>
      var before := t.value[..t.start];
      var sel := if t.start == t.end then "text" else t.value[t.start..t.end];
      var after := t.value[t.end..];
      var insert := Wrapped(tag, sel);
      var next := before + insert + after;
      assert next[..t.start] == before;
      assert next[t.start..t.start + |insert|] == insert;
      assert next[t.start + |insert|..] == after;
      Some(Wrap(next, t.start + |insert|))
  }

  /** `5 * 1024 * 1024` bytes. */
  const MaxImageBytes: nat := 5 * 1024 * 1024

  /** Both file inputs: a chosen file is kept only when it is at most 5 MiB. */
  function AcceptsFile(size: nat): (ok: bool)
    ensures ok <==> size <= 5242880
  {
    !(size > MaxImageBytes)
  }

  /** What submitting the post form does. */
  datatype PostAction = GoToLogin | Ignore | Create

  /** `addComment`: log in first; ignore blank text without an image; otherwise create. */
  function OnPost(isAuthenticated: bool, text: string, hasImage: bool): (a: PostAction)
    ensures a == GoToLogin <==> !isAuthenticated
    ensures a == Create <==> isAuthenticated && (hasImage || exists i :: 0 <= i < |text| && !Text.IsJsSpace(text[i]))
  {
    if !isAuthenticated then GoToLogin
    else if Text.JsTrim(text) == [] && !hasImage then Ignore
    else Create
  }

  /** `saveEdit(id, isDeleted)`: proceeds unless text is blank, there is no preview, and it is not a delete. */
  function EditProceeds(editText: string, editPreview: string, isDeleted: bool): (go: bool)
    ensures isDeleted ==> go
    ensures !go <==> !isDeleted && editPreview == "" && forall i :: 0 <= i < |editText| ==> Text.IsJsSpace(editText[i])
  {
    !(Text.JsTrim(editText) == [] && editPreview == "" && !isDeleted)
  }

  /** `deleteComment(id)`: after confirmation, always reaches the edit request. */
  function DeleteProceeds(confirmed: bool, editText: string, editPreview: string): (go: bool)
    ensures go <==> confirmed
  {
    confirmed && EditProceeds(editText, editPreview, true)
  }

  /** The post form's state. */
  datatype PostForm = PostForm(text: string, hasImage: bool, preview: string, uploading: bool, progress: int)

  /** The form while the create request is in flight. */
  function StartUpload(f: PostForm): PostForm {
    f.(uploading := true, progress := 0)
  }

  /**
   * The form after the create promise settles: `.then` clears the inputs on
   * success, `.finally` resets the upload indicator either way.
   */
  function Settle(f: PostForm, success: bool): (r: PostForm)
    ensures !r.uploading && r.progress == 0
    ensures success ==> r.text == "" && !r.hasImage && r.preview == ""
    ensures !success ==> r.text == f.text && r.hasImage == f.hasImage && r.preview == f.preview
  {
    var g := if success then f.(text := "", hasImage := false, preview := "") else f;
    g.(uploading := false, progress := 0)
  }

  /** A failed post keeps what the user typed, with the indicator back to idle. */
  lemma FailedPostKeepsInput(f: PostForm)
    ensures Settle(StartUpload(f), false) == f.(uploading := false, progress := 0)
  {
  }
}

/**
 * The backend's generic model helpers: patching a row from keyword arguments
 * restricted to an allowed set of fields, and looking up a target object
 * through a type-name mapping. A Django row is a map from field names to values.
 */
module Records {
  import opened Base
  import Seqs
  import Dict

  /** The field values the model layer stores. */
  datatype PyValue = PNone | PBool(b: bool) | PInt(i: int) | PStr(s: string)

  type Row = map<string, PyValue>

  /** Keyword arguments: an insertion-ordered dict whose keys are distinct. */
  type Kwargs = Dict.Dict<PyValue>

  /** The result of `update_instance`: the row, the `update_fields` list, and whether it was saved. */
  datatype Update = Update(row: Row, updatedFields: seq<string>, saved: bool)

  function InSet(allowed: set<string>): string -> bool {
    (k: string) => k in allowed
  }

  /** The loop of `update_instance`: assign each allowed keyword in order and record its name. */
  function Apply(row: Row, allowed: set<string>, data: Kwargs): (r: (Row, seq<string>))
    requires Dict.UniqueKeys(data)
    ensures r.1 == Seqs.Filter(Dict.Keys(data), InSet(allowed))
    ensures forall k :: k in allowed && Dict.HasKey(data, k) ==> k in r.0 && Some(r.0[k]) == Dict.Get(data, k)
    ensures forall k :: !(k in allowed && Dict.HasKey(data, k)) ==> (k in r.0 <==> k in row) && (k in row ==> r.0[k] == row[k])
    decreases |data|
  {
    if |data| == 0 then (row, [])
    else
      var (k, v) := data[0];
      assert Dict.Keys(data)[1..] == Dict.Keys(data[1..]);
      assert forall j :: 0 <= j < |data[1..]| ==> data[1..][j].0 != k;
      var next := if k in allowed then row[k := v] else row;
      var rest := Apply(next, allowed, data[1..]);
      ApplyStep(row, allowed, data, next, rest.0);
      if k in allowed then (rest.0, [k] + rest.1) else rest
  }

  /** One step of the loop: the facts about the rest of the keywords give those about all of them. */
  lemma ApplyStep(row: Row, allowed: set<string>, data: Kwargs, next: Row, out: Row)
    requires |data| > 0 && Dict.UniqueKeys(data)
    requires next == if data[0].0 in allowed then row[data[0].0 := data[0].1] else row
    requires forall k :: k in allowed && Dict.HasKey(data[1..], k) ==> k in out && Some(out[k]) == Dict.Get(data[1..], k)
    requires forall k :: !(k in allowed && Dict.HasKey(data[1..], k)) ==> (k in out <==> k in next) && (k in next ==> out[k] == next[k])
    ensures forall k :: k in allowed && Dict.HasKey(data, k) ==> k in out && Some(out[k]) == Dict.Get(data, k)
    ensures forall k :: !(k in allowed && Dict.HasKey(data, k)) ==> (k in out <==> k in row) && (k in row ==> out[k] == row[k])
  {
    var k0 := data[0].0;
    assert !Dict.HasKey(data[1..], k0) by {
      forall j | 0 <= j < |data[1..]| ensures data[1..][j].0 != k0 {
        assert data[1..][j] == data[j + 1];
      }
    }
    forall k | k in allowed && Dict.HasKey(data, k) ensures k in out && Some(out[k]) == Dict.Get(data, k) {
      if k != k0 {
        var j :| 0 <= j < |data| && data[j].0 == k;
        assert data[1..][j - 1].0 == k;
      }
    }
    forall k | !(k in allowed && Dict.HasKey(data, k)) ensures (k in out <==> k in row) && (k in row ==> out[k] == row[k]) {
      assert !(k in allowed && Dict.HasKey(data[1..], k)) by {
        if Dict.HasKey(data[1..], k) {
          var j :| 0 <= j < |data[1..]| && data[1..][j].0 == k;
          assert data[j + 1].0 == k;
        }
      }
      assert data[0].0 == k0;
    }
  }

  /**
   * `update_instance`: the allowed keywords are assigned, every other field is
   * untouched, and the row is validated and saved (with `update_fields` in keyword
   * order) iff at least one keyword was assigned. `valid` stands for `full_clean`.
   */
  function UpdateInstance(row: Row, allowed: set<string>, data: Kwargs, valid: Row -> bool): (r: Result<Update, PyError>)
    requires Dict.UniqueKeys(data)
    ensures r.Ok? ==> r.value.updatedFields == Seqs.Filter(Dict.Keys(data), InSet(allowed))
    ensures r.Ok? ==> (r.value.saved <==> exists i :: 0 <= i < |data| && data[i].0 in allowed)
    ensures r.Ok? ==> forall k :: k in allowed && Dict.HasKey(data, k) ==> k in r.value.row && Some(r.value.row[k]) == Dict.Get(data, k)
    ensures r.Ok? ==> forall k :: !(k in allowed && Dict.HasKey(data, k)) ==>
      (k in r.value.row <==> k in row) && (k in row ==> r.value.row[k] == row[k])
    ensures r.Err? <==> (exists i :: 0 <= i < |data| && data[i].0 in allowed) && !valid(Apply(row, allowed, data).0)
  {
    var (updated, fields) := Apply(row, allowed, data);
    FieldsNonEmptyIff(data, allowed);
    if |fields| == 0 then Ok(Update(updated, fields, false))
    else if !valid(updated) then Err(ValidationError("full_clean"))
    else Ok(Update(updated, fields, true))
  }

  lemma {:induction false} FieldsNonEmptyIff(data: Kwargs, allowed: set<string>)
    ensures |Seqs.Filter(Dict.Keys(data), InSet(allowed))| > 0 <==> exists i :: 0 <= i < |data| && data[i].0 in allowed
    decreases |data|
  {
    if |data| > 0 {
      assert Dict.Keys(data)[1..] == Dict.Keys(data[1..]);
      FieldsNonEmptyIff(data[1..], allowed);
      if exists i :: 0 <= i < |data| && data[i].0 in allowed {
        var i :| 0 <= i < |data| && data[i].0 in allowed;
        if i > 0 { assert data[1..][i - 1].0 in allowed; }
      }
    }
  }

  /** Keywords with no allowed name change nothing and save nothing. */
  lemma NothingAllowedIsNoOp(row: Row, allowed: set<string>, data: Kwargs, valid: Row -> bool)
    requires Dict.UniqueKeys(data)
    requires forall i :: 0 <= i < |data| ==> data[i].0 !in allowed
    ensures UpdateInstance(row, allowed, data, valid) == Ok(Update(row, [], false))
  {
    var r := UpdateInstance(row, allowed, data, valid);
    assert r.Ok?;
    assert r.value.row == row;
    Seqs.FilterNonePass(Dict.Keys(data), InSet(allowed));
  }

  /** A table: rows by primary key. */
  type Table = map<string, Row>

  /**
   * `get_target_object`: a type name outside the mapping raises `ValueError`;
   * otherwise the row with that id, or `None` when there is none.
   */
  function GetTargetObject(id: string, typeName: string, mapping: map<string, Table>): (r: Result<Option<Row>, PyError>)
    ensures typeName !in mapping <==> r.Err?
    ensures r.Err? ==> r.error == ValueError("Invalid target type: " + typeName)
    ensures r.Ok? ==> (r.value.None? <==> id !in mapping[typeName])
    ensures r.Ok? && r.value.Some? ==> r.value.value == mapping[typeName][id]
  {
    if typeName !in mapping then Err(ValueError("Invalid target type: " + typeName))
    else if id in mapping[typeName] then Ok(Some(mapping[typeName][id]))
    else Ok(None)
  }
}

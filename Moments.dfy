/**
 * The moments kept in `localStorage` by frontend/js/data/storage.js: a list of
 * JSON objects updated and deleted by id.
 */
module MomentStorage {
  import opened Common
  import opened Storage

  /** `m.id === id`: by value on primitives; never for an object or array parsed afresh. */
  predicate HasId(m: Obj, momentId: JVal) {
    id in m && m[id] == momentId && !IsObject(momentId)
  }

  function FindMoment(data: seq<Obj>, momentId: JVal): (i: int)
    ensures -1 <= i < |data|
    ensures i >= 0 ==> HasId(data[i], momentId) && forall k :: 0 <= k < i ==> !HasId(data[k], momentId)
    ensures i == -1 ==> forall k :: 0 <= k < |data| ==> !HasId(data[k], momentId)
  {
    if data == [] then -1
    else if HasId(data[0], momentId) then 0
    else
      var r := FindMoment(data[1..], momentId);
      if r == -1 then -1 else r + 1
  }

  /** `data.filter((m) => m.id !== id)` */
  function WithoutMoment(data: seq<Obj>, momentId: JVal): (r: seq<Obj>)
    ensures |r| <= |data|
    ensures forall m :: m in r <==> m in data && !HasId(m, momentId)
  {
    if data == [] then [] else (if HasId(data[0], momentId) then [] else [data[0]]) + WithoutMoment(data[1..], momentId)
  }

  /** `WithoutMoment` of a list with a known head. */
  lemma WithoutMomentCons(x: Obj, t: seq<Obj>, momentId: JVal)
    ensures WithoutMoment([x] + t, momentId) == (if !HasId(x, momentId) then [x] else []) + WithoutMoment(t, momentId)
  {
    assert ([x] + t)[0] == x && ([x] + t)[1..] == t;
  }

  /** Filtering keeps order and multiplicity: it distributes over concatenation. */
  lemma {:induction false} WithoutMomentConcat(a: seq<Obj>, b: seq<Obj>, momentId: JVal)
    ensures WithoutMoment(a + b, momentId) == WithoutMoment(a, momentId) + WithoutMoment(b, momentId)
  {
    if a == [] {
      assert a + b == b;
    } else {
      var t := a[1..];
      var h := if !HasId(a[0], momentId) then [a[0]] else [];
      calc {
        WithoutMoment(a + b, momentId);
        { HeadTail(a, b); }
        WithoutMoment([a[0]] + (t + b), momentId);
        { WithoutMomentCons(a[0], t + b, momentId); }
        h + WithoutMoment(t + b, momentId);
        { WithoutMomentConcat(t, b, momentId); }
        h + (WithoutMoment(t, momentId) + WithoutMoment(b, momentId));
        { AppendAssoc(h, WithoutMoment(t, momentId), WithoutMoment(b, momentId)); }
        (h + WithoutMoment(t, momentId)) + WithoutMoment(b, momentId);
        { WithoutMomentCons(a[0], t, momentId); }
        WithoutMoment(a, momentId) + WithoutMoment(b, momentId);
      }
    }
  }

  /** A one-element list keeps its element exactly when it passes the test. */
  lemma WithoutMomentSingleton(x: Obj, momentId: JVal)
    ensures WithoutMoment([x], momentId) == (if !HasId(x, momentId) then [x] else [])
  {
    WithoutMomentCons(x, [], momentId);
    assert [x] + [] == [x];
  }

  /** The filter drops something exactly when some moment has the id. */
  lemma {:induction false} WithoutMomentShrinks(data: seq<Obj>, momentId: JVal)
    ensures |WithoutMoment(data, momentId)| == |data| <==> forall k :: 0 <= k < |data| ==> !HasId(data[k], momentId)
  {
    if data != [] {
      WithoutMomentShrinks(data[1..], momentId);
      assert forall k :: 1 <= k < |data| ==> data[k] == data[1..][k - 1];
    }
  }

  /** `{ ...current, ...patch, id: current.id }` */
  function PatchedMoment(current: Obj, patch: Obj): (r: Obj)
    requires id in current
    ensures id in r && r[id] == current[id]
    ensures forall k :: k != id ==> Lookup(r, k) == (if k in patch then Some(patch[k]) else Lookup(current, k))
  {
    (current + patch)[id := current[id]]
  }

  class MomentStore {
    /** The parsed `moments` item; `None` when it is missing or empty. */
    var saved: Option<seq<Obj>>

    constructor (saved: Option<seq<Obj>>)
      ensures this.saved == saved
    {
      this.saved := saved;
    }

    /** `raw ? JSON.parse(raw) : []` */
    function Data(): seq<Obj>
      reads this
    {
      if saved.Some? then saved.value else []
    }

    /**
     * `updateMoment(id, patch)`: false, saving nothing, when no moment has the id;
     * otherwise the first such moment takes the patch but keeps its id.
     */
    method UpdateMoment(momentId: JVal, patch: Obj) returns (updated: bool)
      modifies this
      ensures var data := old(Data()); var i := FindMoment(data, momentId);
        updated == (i >= 0)
        && (i == -1 ==> saved == old(saved))
        && (i >= 0 ==> saved == Some(data[i := PatchedMoment(data[i], patch)]))
    {
      var data := Data();
      var index := FindMoment(data, momentId);
      if index == -1 {
        return false;
      }
      var current := data[index];
      data := data[index := PatchedMoment(current, patch)];
      saved := Some(data);
      return true;
    }

    /** `deleteMoment(id)`: true exactly when some moment had the id, and then the others are saved. */
    method DeleteMoment(momentId: JVal) returns (changed: bool)
      modifies this
      ensures changed <==> exists k :: 0 <= k < |old(Data())| && HasId(old(Data())[k], momentId)
      ensures saved == if changed then Some(WithoutMoment(old(Data()), momentId)) else old(saved)
    {
      var data := Data();
      var next := WithoutMoment(data, momentId);
      WithoutMomentShrinks(data, momentId);
      changed := |next| != |data|;
      if changed {
        saved := Some(next);
      }
    }
  }
}

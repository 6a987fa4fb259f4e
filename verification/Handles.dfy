/** Process handle tables: capabilities (an object with rights) named by handle values. */
module Handles {
  import opened Common

  /** The numbers of the bits that are set. */
  type Rights = set<nat>

  const READ: nat := 0
  const WRITE: nat := 1
  const DUPLICATE: nat := 4
  const TRANSFER: nat := 5
  const WAIT: nat := 6
  const BASIC: Rights := {READ, WRITE, WAIT}

  /** A capability; the object is identified by a number. */
  datatype Entry = Entry(target: nat, rights: Rights)

  datatype Table = Table(handles: map<nat, Entry>, nextId: nat)

  // ---------------------------------------------------------------- specification

  /** Handle values in use have been given out before. */
  ghost predicate TableOk(t: Table) {
    t.nextId > 0 && forall h {:trigger h in t.handles} :: h in t.handles ==> 0 < h < t.nextId
  }

  function Get(t: Table, h: nat, required: Rights): Option<nat> {
    if h in t.handles && required <= t.handles[h].rights then Some(t.handles[h].target) else None
  }

  /** A new entry takes the next handle value. */
  function Inserted(t: Table, e: Entry): Table {
    Table(t.handles[t.nextId := e], t.nextId + 1)
  }

  function Duplicated(t: Table, h: nat, rights: Rights): Option<Table> {
    if h in t.handles && DUPLICATE in t.handles[h].rights
    then Some(Inserted(t, Entry(t.handles[h].target, t.handles[h].rights * rights)))
    else None
  }

  predicate Transferable(t: Table, h: nat) {
    h in t.handles && TRANSFER in t.handles[h].rights
  }

  predicate AllTransferable(t: Table, hs: seq<nat>) {
    forall i :: 0 <= i < |hs| ==> Transferable(t, hs[i])
  }

  /** Removes the listed handles that are there, in order; a repeated one only once. */
  function Taken(t: Table, hs: seq<nat>): (Table, seq<Entry>)
    decreases |hs|
  {
    if hs == [] then (t, [])
    else if hs[0] !in t.handles then Taken(t, hs[1..])
    else
      var (t', es) := Taken(t.(handles := t.handles - {hs[0]}), hs[1..]);
      (t', [t.handles[hs[0]]] + es)
  }

  function Received(t: Table, es: seq<Entry>): Table
    decreases |es|
  {
    if es == [] then t else Received(Inserted(t, es[0]), es[1..])
  }

  // ---------------------------------------------------------------- conservation

  /** The handles that name a given capability: its object with exactly its rights. */
  function Slots(t: Table, x: Entry): set<nat> {
    set h | h in t.handles && t.handles[h] == x
  }

  /** How many of the entries are this capability. */
  function Count(es: seq<Entry>, x: Entry): nat { multiset(es)[x] }

  function One(e: Entry, x: Entry): nat { if e == x then 1 else 0 }

  lemma CountFirst(es: seq<Entry>, x: Entry)
    requires es != []
    ensures Count(es, x) == One(es[0], x) + Count(es[1..], x)
  {
    assert es == [es[0]] + es[1..];
  }

  lemma Insertion(t: Table, e: Entry, x: Entry)
    requires TableOk(t)
    ensures TableOk(Inserted(t, e)) && t.nextId !in t.handles
    ensures |Slots(Inserted(t, e), x)| == |Slots(t, x)| + One(e, x)
  {
    if e == x {
      assert Slots(Inserted(t, e), x) == Slots(t, x) + {t.nextId};
    } else {
      assert Slots(Inserted(t, e), x) == Slots(t, x);
    }
  }

  function Without(t: Table, h: nat): Table { t.(handles := t.handles - {h}) }

  lemma Removal(t: Table, h: nat, x: Entry)
    requires TableOk(t) && h in t.handles
    ensures TableOk(Without(t, h)) && |Slots(t, x)| == |Slots(Without(t, h), x)| + One(t.handles[h], x)
  {
    if t.handles[h] == x {
      assert Slots(t, x) == Slots(Without(t, h), x) + {h};
    } else {
      assert Slots(t, x) == Slots(Without(t, h), x);
    }
  }

  lemma ElemsFirst(hs: seq<nat>)
    requires hs != []
    ensures Elems(hs) == {hs[0]} + Elems(hs[1..])
  {
    forall h | h in Elems(hs)
      ensures h in {hs[0]} + Elems(hs[1..])
    {
      var i :| 0 <= i < |hs| && hs[i] == h;
      if i > 0 {
        assert hs[1..][i - 1] == h;
      }
    }
    assert forall i :: 0 <= i < |hs| - 1 ==> hs[1..][i] == hs[i + 1];
  }

  lemma ElemsLast(hs: seq<nat>, h: nat)
    ensures Elems(hs + [h]) == Elems(hs) + {h}
  {
    assert (hs + [h])[|hs|] == h;
    assert forall i :: 0 <= i < |hs| ==> (hs + [h])[i] == hs[i];
  }

  /** Transferring removes exactly the listed handles, and yields as many of each
      capability as the table loses. */
  lemma {:induction false} TakenMoves(t: Table, hs: seq<nat>, x: Entry)
    requires TableOk(t)
    ensures var (t', es) := Taken(t, hs);
            && t' == t.(handles := t.handles - Elems(hs)) && TableOk(t')
            && |Slots(t, x)| == |Slots(t', x)| + Count(es, x)
    decreases |hs|
  {
    if hs == [] {
      assert t.handles - Elems(hs) == t.handles;
    } else {
      ElemsFirst(hs);
      if hs[0] in t.handles {
        Removal(t, hs[0], x);
        TakenMoves(Without(t, hs[0]), hs[1..], x);
        assert t.handles - {hs[0]} - Elems(hs[1..]) == t.handles - Elems(hs);
        CountFirst(Taken(t, hs).1, x);
      } else {
        TakenMoves(t, hs[1..], x);
        assert t.handles - Elems(hs[1..]) == t.handles - Elems(hs);
      }
    }
  }

  /** Each distinct listed handle yields exactly one capability. */
  lemma {:induction false} TakenCount(t: Table, hs: seq<nat>)
    ensures |Taken(t, hs).1| == |Elems(hs) * t.handles.Keys|
    decreases |hs|
  {
    if hs == [] {
      assert Elems(hs) * t.handles.Keys == {};
    } else {
      var t0 := if hs[0] in t.handles then Without(t, hs[0]) else t;
      TakenCount(t0, hs[1..]);
      ElemsFirst(hs);
      FirstCount(hs[0], Elems(hs[1..]), t.handles.Keys, t0.handles.Keys);
    }
  }

  /** Distinct handles that are all there yield their capabilities in the order listed. */
  lemma {:induction false} TakenInOrder(t: Table, hs: seq<nat>)
    requires Distinct(hs) && forall i :: 0 <= i < |hs| ==> hs[i] in t.handles
    ensures |Taken(t, hs).1| == |hs| && forall i :: 0 <= i < |hs| ==> Taken(t, hs).1[i] == t.handles[hs[i]]
    decreases |hs|
  {
    if hs != [] {
      var rest := hs[1..];
      assert At(0);
      forall i | 0 <= i < |rest|
        ensures rest[i] in Without(t, hs[0]).handles && rest[i] == hs[i + 1]
      {
        assert At(i + 1);
      }
      forall i, j {:trigger At(i), At(j)} | At(i) && At(j) && 0 <= i < j < |rest|
        ensures rest[i] != rest[j]
      {
        assert At(i + 1) && At(j + 1);
      }
      TakenInOrder(Without(t, hs[0]), rest);
    }
  }

  lemma FirstCount(h: nat, rest: set<nat>, keys: set<nat>, keys0: set<nat>)
    requires keys0 == keys - {h}
    ensures |({h} + rest) * keys| == (if h in keys then 1 else 0) + |rest * keys0|
  {
    if h in keys {
      assert ({h} + rest) * keys == rest * keys0 + {h};
    } else {
      assert ({h} + rest) * keys == rest * keys0;
    }
  }

  /** `t'` has the entries of `t` and, under the next handle values, the given ones. */
  ghost predicate Extends(t: Table, t': Table, es: seq<Entry>) {
    && t'.nextId == t.nextId + |es|
    && (forall h {:trigger At(h)} :: At(h) ==>
          && (h in t'.handles <==> h in t.handles || t.nextId <= h < t'.nextId)
          && (h in t.handles ==> t'.handles[h] == t.handles[h])
          && (t.nextId <= h < t'.nextId ==> t'.handles[h] == es[h - t.nextId]))
  }

  /** Receiving adds the capabilities under the next handle values. */
  lemma {:induction false} ReceivedAdds(t: Table, es: seq<Entry>, x: Entry)
    requires TableOk(t)
    ensures TableOk(Received(t, es)) && |Slots(Received(t, es), x)| == |Slots(t, x)| + Count(es, x)
    ensures Extends(t, Received(t, es), es)
    decreases |es|
  {
    if es != [] {
      Insertion(t, es[0], x);
      CountFirst(es, x);
      ReceivedAdds(Inserted(t, es[0]), es[1..], x);
    }
  }

  // ---------------------------------------------------------------- handle values

  /** `t'` is a later state of table `t`: a handle value given out before still names the
      same capability or none. */
  ghost predicate Later(t: Table, t': Table) {
    && t.nextId <= t'.nextId
    && forall h {:trigger At(h)} :: At(h) && h in t'.handles && h < t.nextId ==>
         h in t.handles && t'.handles[h] == t.handles[h]
  }

  lemma LaterOn(t: Table, t': Table, t'': Table)
    requires Later(t, t') && Later(t', t'')
    ensures Later(t, t'')
  {
  }

  lemma {:induction false} TakenLater(t: Table, hs: seq<nat>)
    ensures Later(t, Taken(t, hs).0)
    decreases |hs|
  {
    if hs != [] {
      TakenLater(if hs[0] in t.handles then Without(t, hs[0]) else t, hs[1..]);
    }
  }

  lemma {:induction false} ReceivedLater(t: Table, es: seq<Entry>)
    ensures Later(t, Received(t, es))
    decreases |es|
  {
    if es != [] {
      ReceivedLater(Inserted(t, es[0]), es[1..]);
      LaterOn(t, Inserted(t, es[0]), Received(t, es));
    }
  }

  // ---------------------------------------------------------------- implementation

  class HandleTable {
    var handles: map<nat, Entry>
    var nextId: nat

    /** Every handle value this table ever gave out. */
    ghost var issued: set<nat>

    ghost predicate Valid()
      reads this
    {
      TableOk(View()) && handles.Keys <= issued && forall h :: h in issued ==> h < nextId
    }

    ghost function View(): Table
      reads this
    {
      Table(handles, nextId)
    }

    constructor ()
      ensures Valid() && View() == Table(map[], 1) && issued == {}
    {
      handles, nextId, issued := map[], 1, {};
    }

    /** The object a handle names, if it has the rights asked for. */
    function Find(h: nat, required: Rights): (r: Option<nat>)
      reads this
      ensures r == Get(View(), h, required)
    {
      if h in handles && required <= handles[h].rights then Some(handles[h].target) else None
    }

    /** The new handle value was never given out before. */
    method Insert(target: nat, rights: Rights) returns (h: nat)
      requires Valid()
      modifies this
      ensures Valid() && View() == Inserted(old(View()), Entry(target, rights)) && h == old(nextId)
      ensures h !in old(issued) && issued == old(issued) + {h}
    {
      h := nextId;
      nextId := nextId + 1;
      handles := handles[h := Entry(target, rights)];
      issued := issued + {h};
    }

    method Remove(h: nat) returns (r: Option<Entry>)
      requires Valid()
      modifies this`handles
      ensures Valid() && View() == Without(old(View()), h)
      ensures r == if h in old(handles) then Some(old(handles)[h]) else None
      ensures r.None? ==> View() == old(View())
    {
      if h in handles {
        r := Some(handles[h]);
        handles := handles - {h};
      } else {
        assert handles - {h} == handles;
        r := None;
      }
    }

    /** The copy has no right that the original lacks, nor one that was not asked for. */
    method Duplicate(h: nat, rights: Rights) returns (r: Option<nat>)
      requires Valid()
      modifies this
      ensures Valid() && (r.None? <==> Duplicated(old(View()), h, rights).None?)
      ensures r.None? ==> View() == old(View()) && issued == old(issued)
      ensures r.Some? ==>
                && View() == Duplicated(old(View()), h, rights).value && r.value == old(nextId)
                && r.value !in old(issued) && issued == old(issued) + {r.value}
                && handles[r.value].target == old(handles)[h].target
                && handles[r.value].rights <= old(handles)[h].rights && handles[r.value].rights <= rights
    {
      if h !in handles || DUPLICATE !in handles[h].rights {
        return None;
      }
      var entry := handles[h];
      var copy := Insert(entry.target, entry.rights * rights);
      r := Some(copy);
    }

    method Transfer(h: nat) returns (r: Option<Entry>)
      requires Valid()
      modifies this`handles
      ensures Valid() && (r.Some? <==> Transferable(old(View()), h))
      ensures View() == if r.Some? then Without(old(View()), h) else old(View())
      ensures r.Some? ==> r.value == old(handles)[h]
    {
      if h !in handles || TRANSFER !in handles[h].rights {
        return None;
      }
      r := Remove(h);
    }

    /** Moves every listed handle out, or changes nothing. */
    method TransferMany(hs: seq<nat>) returns (r: Option<seq<Entry>>)
      requires Valid()
      modifies this`handles
      ensures Valid() && (r.Some? <==> AllTransferable(old(View()), hs))
      ensures r.None? ==> View() == old(View())
      ensures r.Some? ==>
                && View() == Taken(old(View()), hs).0 && r.value == Taken(old(View()), hs).1
                && handles == old(handles) - Elems(hs) && |r.value| == |Elems(hs)|
    {
      var i := 0;
      while i < |hs|
        invariant 0 <= i <= |hs|
        invariant forall j :: 0 <= j < i ==> Transferable(View(), hs[j])
      {
        if hs[i] !in handles || TRANSFER !in handles[hs[i]].rights {
          assert !Transferable(View(), hs[i]);
          return None;
        }
        i := i + 1;
      }
      TakenCount(View(), hs);
      TakenMoves(View(), hs, Entry(0, {}));
      assert Elems(hs) * handles.Keys == Elems(hs);
      var results := TakeAll(hs);
      r := Some(results);
    }

    method TakeAll(hs: seq<nat>) returns (results: seq<Entry>)
      requires Valid()
      modifies this`handles
      ensures Valid() && View() == Taken(old(View()), hs).0 && results == Taken(old(View()), hs).1
    {
      results := [];
      var i := 0;
      assert hs[0..] == hs;
      while i < |hs|
        invariant 0 <= i <= |hs| && Valid()
        invariant Taken(old(View()), hs).0 == Taken(View(), hs[i..]).0
        invariant Taken(old(View()), hs).1 == results + Taken(View(), hs[i..]).1
      {
        assert hs[i..][0] == hs[i] && hs[i..][1..] == hs[i + 1..];
        var entry := Remove(hs[i]);
        if entry.Some? {
          assert results + ([entry.value] + Taken(View(), hs[i + 1..]).1) ==
              results + [entry.value] + Taken(View(), hs[i + 1..]).1;
          results := results + [entry.value];
        }
        i := i + 1;
      }
      assert hs[i..] == [];
    }

    /** The received capabilities get handle values never given out before, in order. */
    method ReceiveMany(es: seq<Entry>) returns (r: seq<nat>)
      requires Valid()
      modifies this
      ensures Valid() && View() == Received(old(View()), es)
      ensures |r| == |es| && forall i :: 0 <= i < |es| ==> r[i] == old(nextId) + i && r[i] !in old(issued)
      ensures issued == old(issued) + Elems(r)
    {
      r := [];
      var i := 0;
      while i < |es|
        invariant 0 <= i <= |es| == i + |es[i..]| && Valid() && nextId == old(nextId) + i
        invariant issued == old(issued) + Elems(r)
        invariant Received(old(View()), es) == Received(View(), es[i..])
        invariant |r| == i && forall k :: 0 <= k < i ==> r[k] == old(nextId) + k
      {
        assert es[i..][1..] == es[i + 1..];
        var h := Insert(es[i].target, es[i].rights);
        ElemsLast(r, h);
        r := r + [h];
        i := i + 1;
      }
    }
  }
}

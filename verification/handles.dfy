/** Ownership of graphics-device handles by `GLResource` objects.

    Every resource wrapper (shader, program, texture, vertex and index
    buffer, vertex array) holds one unsigned name handed out by the graphics
    driver. Copying is deleted; moving either transfers the name and leaves
    zero behind (move construction) or swaps the two names (move
    assignment); a destructor deletes its name only when it is nonzero.

    The model is a ledger: the handle field of every wrapper object ever
    constructed (a destroyed object's slot is `Gone`), the log of delete
    calls made to the driver, and the set of names the driver has issued.
 */
module Handles {

  import opened Wrappers

  /** Which driver call created the name, and so which delete call frees it.
      Vertex and index buffers share the buffer namespace. */
  datatype Kind = ShaderKind | ProgramKind | TextureKind | BufferKind | VertexArrayKind

  /** A driver object: names are unique only within their namespace. */
  datatype Name = Name(kind: Kind, id: nat)

  /** A wrapper object's handle field, or a destroyed object. */
  datatype Slot = Live(kind: Kind, id: nat) | Gone

  datatype Ledger = Ledger(objects: seq<Slot>, released: seq<Name>, issued: set<Name>)

  /** The ledger before any wrapper exists. */
  function Empty(): Ledger {
    Ledger([], [], {})
  }

  /** The driver name a slot keeps alive: none for a destroyed object or a
      zero handle. */
  function SlotNames(s: Slot): multiset<Name> {
    if s.Live? && s.id != 0 then multiset{Name(s.kind, s.id)} else multiset{}
  }

  /** All driver names currently held by live wrappers, with multiplicity. */
  function Held(objects: seq<Slot>): multiset<Name>
    decreases |objects|
  {
    if |objects| == 0 then multiset{}
    else Held(objects[..|objects| - 1]) + SlotNames(objects[|objects| - 1])
  }

  /** Names held or already deleted. */
  function Owned(l: Ledger): multiset<Name> {
    Held(l.objects) + multiset(l.released)
  }

  /** The ownership invariant: no name is held by two wrappers, deleted
      twice, or both held and deleted; and every such name came from the
      driver. */
  ghost predicate Valid(l: Ledger) {
    && (forall n :: Owned(l)[n] <= 1)
    && (forall n :: n in Owned(l) ==> n in l.issued)
  }

  /** Whether slot `i` is a live wrapper. */
  predicate IsLive(l: Ledger, i: int) {
    0 <= i < |l.objects| && l.objects[i].Live?
  }

  // ---------------------------------------------------------------------
  // Facts about Held
  // ---------------------------------------------------------------------

  lemma HeldAppend(objects: seq<Slot>, s: Slot)
    ensures Held(objects + [s]) == Held(objects) + SlotNames(s)
  {
    assert (objects + [s])[..|objects|] == objects;
  }

  /** `Held` peels off the last slot. */
  lemma HeldLast(objects: seq<Slot>)
    requires |objects| > 0
    ensures Held(objects) == Held(objects[..|objects| - 1]) + SlotNames(objects[|objects| - 1])
  {
  }

  /** `Held` distributes over concatenation. */
  lemma {:induction false} HeldConcat(a: seq<Slot>, b: seq<Slot>)
    ensures Held(a + b) == Held(a) + Held(b)
    decreases |b|
  {
    if |b| == 0 {
      assert a + b == a;
    } else {
      var b' := b[..|b| - 1];
      HeldConcat(a, b');
      assert (a + b)[..|a + b| - 1] == a + b';
      HeldLast(a + b);
      HeldLast(b);
      Regroup(Held(a), Held(b'), SlotNames(b[|b| - 1]));
    }
  }

  /** Overwriting one slot swaps that slot's contribution. */
  lemma HeldUpdate(objects: seq<Slot>, i: nat, s: Slot)
    requires i < |objects|
    ensures Held(objects[i := s]) + SlotNames(objects[i]) == Held(objects) + SlotNames(s)
  {
    var before, after := objects[..i], objects[i + 1..];
    assert objects == (before + [objects[i]]) + after;
    assert objects[i := s] == (before + [s]) + after;
    HeldConcat(before + [objects[i]], after);
    HeldConcat(before + [s], after);
    HeldAppend(before, objects[i]);
    HeldAppend(before, s);
    Exchange(Held(before), Held(after), SlotNames(objects[i]), SlotNames(s));
  }

  /** Union is associative. */
  lemma Regroup<T>(x: multiset<T>, y: multiset<T>, z: multiset<T>)
    ensures x + (y + z) == (x + y) + z
  {
  }

  /** Swapping one summand for another, seen from either side. */
  lemma Exchange<T>(x: multiset<T>, y: multiset<T>, a: multiset<T>, b: multiset<T>)
    ensures ((x + b) + y) + a == ((x + a) + y) + b
  {
    assert forall n :: (((x + b) + y) + a)[n] == x[n] + y[n] + a[n] + b[n];
    assert forall n :: (((x + a) + y) + b)[n] == x[n] + y[n] + a[n] + b[n];
  }

  /** Multiset union cancels. */
  lemma Cancel<T>(x: multiset<T>, y: multiset<T>, z: multiset<T>)
    requires x + z == y + z
    ensures x == y
  {
    assert forall n :: x[n] == (x + z)[n] - z[n];
  }

  /** A ledger whose objects are all destroyed holds nothing. */
  lemma {:induction false} HeldAllGone(objects: seq<Slot>)
    requires forall j :: 0 <= j < |objects| ==> objects[j] == Gone
    ensures Held(objects) == multiset{}
    decreases |objects|
  {
    if |objects| > 0 {
      HeldAllGone(objects[..|objects| - 1]);
    }
  }

  /** Events that neither take new names nor lose owned ones keep the
      invariant. */
  lemma SameOwnedValid(l: Ledger, r: Ledger)
    requires Owned(r) == Owned(l) && l.issued <= r.issued
    ensures Valid(l) ==> Valid(r)
  {
  }

  // ---------------------------------------------------------------------
  // Construction
  // ---------------------------------------------------------------------

  /** A wrapper constructed around a name the driver just handed out (the
      driver never hands out a name it has handed out before; zero stands
      for a failed `glCreateShader`/`glCreateProgram`). */
  function Construct(l: Ledger, kind: Kind, id: nat): (r: Ledger)
    requires id == 0 || Name(kind, id) !in l.issued
    ensures |r.objects| == |l.objects| + 1 && r.objects[|l.objects|] == Live(kind, id)
    ensures r.objects[..|l.objects|] == l.objects && r.released == l.released
    ensures Owned(r) == Owned(l) + SlotNames(Live(kind, id))
    ensures r.issued == if id == 0 then l.issued else l.issued + {Name(kind, id)}
    ensures Valid(l) ==> Valid(r)
  {
    HeldAppend(l.objects, Live(kind, id));
    var r := Ledger(l.objects + [Live(kind, id)], l.released,
                    if id == 0 then l.issued else l.issued + {Name(kind, id)});
    assert r.objects[..|l.objects|] == l.objects;
    r
  }

  /** A default-constructed wrapper holds the zero handle, so it owns no
      driver object. */
  function DefaultConstruct(l: Ledger, kind: Kind): (r: Ledger)
    ensures |r.objects| == |l.objects| + 1 && r.objects[|l.objects|] == Live(kind, 0)
    ensures r.objects[..|l.objects|] == l.objects && r.released == l.released
    ensures Owned(r) == Owned(l) && r.issued == l.issued
    ensures Valid(l) ==> Valid(r)
  {
    Construct(l, kind, 0)
  }

  /** A constructor that obtains a name and then throws (a texture whose
      image cannot be decoded, a shader whose source cannot be read): the
      derived destructor never runs and the base destructor deletes
      nothing, so the name is issued but neither held nor deleted. */
  function ConstructFails(l: Ledger, kind: Kind, id: nat): (r: Ledger)
    requires id != 0 && Name(kind, id) !in l.issued
    ensures r.objects == l.objects && r.released == l.released
    ensures r.issued == l.issued + {Name(kind, id)} && Owned(r) == Owned(l)
    ensures Valid(l) ==> Valid(r) && Name(kind, id) !in Owned(r)
  {
    l.(issued := l.issued + {Name(kind, id)})
  }

  // ---------------------------------------------------------------------
  // Moves
  // ---------------------------------------------------------------------

  /** Move construction: the new wrapper takes the source's name and the
      source is left holding zero. */
  function MoveConstruct(l: Ledger, src: nat): (r: Ledger)
    requires IsLive(l, src)
    ensures |r.objects| == |l.objects| + 1
    ensures r.objects[|l.objects|] == l.objects[src]
    ensures r.objects[src] == Live(l.objects[src].kind, 0)
    ensures forall j :: 0 <= j < |l.objects| && j != src ==> r.objects[j] == l.objects[j]
    ensures r.released == l.released && r.issued == l.issued
    ensures Held(r.objects) == Held(l.objects)
    ensures Valid(l) ==> Valid(r)
  {
    MoveConstructHeld(l.objects, src);
    var r := l.(objects := l.objects[src := Live(l.objects[src].kind, 0)] + [l.objects[src]]);
    SameOwnedValid(l, r);
    r
  }

  lemma MoveConstructHeld(objects: seq<Slot>, src: nat)
    requires src < |objects| && objects[src].Live?
    ensures Held(objects[src := Live(objects[src].kind, 0)] + [objects[src]]) == Held(objects)
  {
    var s := objects[src];
    var zeroed := objects[src := Live(s.kind, 0)];
    HeldUpdate(objects, src, Live(s.kind, 0));
    assert SlotNames(Live(s.kind, 0)) == multiset{};
    assert Held(zeroed) + SlotNames(s) == Held(objects) + multiset{};
    HeldAppend(zeroed, s);
  }

  /** Move assignment: the two wrappers exchange names, so whatever the
      destination held is deleted later by the source's destructor. */
  function MoveAssign(l: Ledger, dst: nat, src: nat): (r: Ledger)
    requires IsLive(l, dst) && IsLive(l, src)
    requires l.objects[dst].kind == l.objects[src].kind
    ensures |r.objects| == |l.objects|
    ensures r.objects[dst] == l.objects[src] && r.objects[src] == l.objects[dst]
    ensures forall j :: 0 <= j < |l.objects| && j != src && j != dst ==> r.objects[j] == l.objects[j]
    ensures r.released == l.released && r.issued == l.issued
    ensures Held(r.objects) == Held(l.objects)
    ensures Valid(l) ==> Valid(r)
  {
    var a := l.objects[dst];
    var b := l.objects[src];
    var step := l.objects[dst := b];
    var swapped := step[src := a];
    HeldUpdate(l.objects, dst, b);
    HeldUpdate(step, src, a);
    assert step[src] == b;
    assert Held(swapped) + SlotNames(b) == Held(l.objects) + SlotNames(b);
    Cancel(Held(swapped), Held(l.objects), SlotNames(b));
    var r := l.(objects := swapped);
    SameOwnedValid(l, r);
    r
  }

  // ---------------------------------------------------------------------
  // Destruction
  // ---------------------------------------------------------------------

  /** A destructor: the name is deleted exactly when it is nonzero. */
  function Destroy(l: Ledger, i: nat): (r: Ledger)
    requires IsLive(l, i)
    ensures |r.objects| == |l.objects| && r.objects[i] == Gone
    ensures forall j :: 0 <= j < |l.objects| && j != i ==> r.objects[j] == l.objects[j]
    ensures l.objects[i].id != 0 ==> r.released == l.released + [Name(l.objects[i].kind, l.objects[i].id)]
    ensures l.objects[i].id == 0 ==> r.released == l.released
    ensures r.issued == l.issued
    ensures Owned(r) == Owned(l)
    ensures Valid(l) ==> Valid(r)
  {
    var s := l.objects[i];
    var r := l.(objects := l.objects[i := Gone],
                released := if s.id != 0 then l.released + [Name(s.kind, s.id)] else l.released);
    DestroyOwned(l, i, r);
    SameOwnedValid(l, r);
    r
  }

  lemma DestroyOwned(l: Ledger, i: nat, r: Ledger)
    requires IsLive(l, i)
    requires r.objects == l.objects[i := Gone]
    requires multiset(r.released) == multiset(l.released) + SlotNames(l.objects[i])
    ensures Owned(r) == Owned(l)
  {
    var s := l.objects[i];
    HeldUpdate(l.objects, i, Gone);
    assert SlotNames(Gone) == multiset{};
    assert Held(r.objects) + SlotNames(s) == Held(l.objects) + multiset{};
    calc {
      Owned(r);
      Held(r.objects) + (multiset(l.released) + SlotNames(s));
      (Held(r.objects) + SlotNames(s)) + multiset(l.released);
      Owned(l);
    }
  }

  // ---------------------------------------------------------------------
  // Whole programs
  // ---------------------------------------------------------------------

  /** One lifetime event of a wrapper object. */
  datatype Op =
    | NewDefault(kind: Kind)
    | New(kind: Kind, id: nat)
    | NewFailing(kind: Kind, id: nat)
    | MoveNew(src: nat)
    | MoveInto(dst: nat, src: nat)
    | Delete(i: nat)

  /** Whether the event can happen: the objects involved are alive, a move
      assignment is between wrappers of one type, and a new name is fresh. */
  predicate Enabled(l: Ledger, op: Op) {
    match op
    case NewDefault(_) => true
    case New(k, id) => id == 0 || Name(k, id) !in l.issued
    case NewFailing(k, id) => id != 0 && Name(k, id) !in l.issued
    case MoveNew(src) => IsLive(l, src)
    case MoveInto(dst, src) => IsLive(l, dst) && IsLive(l, src) && l.objects[dst].kind == l.objects[src].kind
    case Delete(i) => IsLive(l, i)
  }

  function Step(l: Ledger, op: Op): Ledger
    requires Enabled(l, op)
  {
    match op
    case NewDefault(k) => DefaultConstruct(l, k)
    case New(k, id) => Construct(l, k, id)
    case NewFailing(k, id) => ConstructFails(l, k, id)
    case MoveNew(src) => MoveConstruct(l, src)
    case MoveInto(dst, src) => MoveAssign(l, dst, src)
    case Delete(i) => Destroy(l, i)
  }

  /** Runs a program; `None` when some event is not enabled. */
  function Run(l: Ledger, ops: seq<Op>): Option<Ledger>
    decreases |ops|
  {
    if |ops| == 0 then Some(l)
    else if Enabled(l, ops[0]) then Run(Step(l, ops[0]), ops[1..])
    else None
  }

  /** Every event preserves the ownership invariant. */
  lemma StepValid(l: Ledger, op: Op)
    requires Valid(l) && Enabled(l, op)
    ensures Valid(Step(l, op))
  {
  }

  /** Any program of wrapper lifetimes keeps the invariant. */
  lemma {:induction false} RunValid(l: Ledger, ops: seq<Op>)
    requires Valid(l)
    ensures Run(l, ops).Some? ==> Valid(Run(l, ops).value)
    decreases |ops|
  {
    if |ops| > 0 && Enabled(l, ops[0]) {
      StepValid(l, ops[0]);
      RunValid(Step(l, ops[0]), ops[1..]);
    }
  }

  /** Moves never create or lose a held name. */
  lemma {:induction false} MovesKeepHeld(l: Ledger, ops: seq<Op>)
    requires forall i :: 0 <= i < |ops| ==> ops[i].MoveNew? || ops[i].MoveInto?
    ensures Run(l, ops).Some? ==>
              Held(Run(l, ops).value.objects) == Held(l.objects) && Run(l, ops).value.released == l.released
    decreases |ops|
  {
    if |ops| > 0 && Enabled(l, ops[0]) {
      var next := Step(l, ops[0]);
      assert Held(next.objects) == Held(l.objects) && next.released == l.released;
      MovesKeepHeld(next, ops[1..]);
    }
  }

  /** Starting from no wrappers, no driver name is ever deleted twice and no
      two live wrappers ever hold the same name. */
  lemma NoDoubleRelease(ops: seq<Op>, n: Name)
    requires Run(Empty(), ops).Some?
    ensures multiset(Run(Empty(), ops).value.released)[n] <= 1
    ensures Held(Run(Empty(), ops).value.objects)[n] <= 1
  {
    assert Owned(Empty()) == multiset{};
    RunValid(Empty(), ops);
    var r := Run(Empty(), ops).value;
    assert Owned(r)[n] == Held(r.objects)[n] + multiset(r.released)[n];
  }

  /** A name leaked by a failed constructor is never held or deleted by any
      later event. */
  lemma {:induction false} LeakIsPermanent(l: Ledger, ops: seq<Op>, n: Name)
    requires n in l.issued && n !in Owned(l)
    ensures Run(l, ops).Some? ==> n in Run(l, ops).value.issued && n !in Owned(Run(l, ops).value)
    decreases |ops|
  {
    if |ops| > 0 && Enabled(l, ops[0]) {
      LeakIsPermanent(Step(l, ops[0]), ops[1..], n);
    }
  }

  /** Destroying every live wrapper, newest first, as happens at scope or
      program exit: each held name is deleted exactly once. */
  method Teardown(l: Ledger) returns (r: Ledger)
    requires Valid(l)
    ensures forall j :: 0 <= j < |r.objects| ==> r.objects[j] == Gone
    ensures |r.objects| == |l.objects|
    ensures multiset(r.released) == multiset(l.released) + Held(l.objects)
    ensures Valid(r)
  {
    r := l;
    var i := |l.objects|;
    while i > 0
      invariant 0 <= i <= |l.objects| && |r.objects| == |l.objects|
      invariant forall j :: i <= j < |r.objects| ==> r.objects[j] == Gone
      invariant Owned(r) == Owned(l)
      invariant Valid(r)
      decreases i
    {
      i := i - 1;
      if r.objects[i].Live? {
        r := Destroy(r, i);
      }
    }
    HeldAllGone(r.objects);
    assert Owned(r) == multiset(r.released);
  }
}

/**
 * The reconciliation of the tracked list with a fresh poll, as the two `for`
 * loops of the polling loop perform it, stated as functions on sequences:
 * first every fresh slot that is not yet tracked is appended, then every
 * tracked slot that is no longer fresh is removed. Membership is
 * `Slot.__eq__`, that is, by identifier.
 */
module Reconcile {
  import opened Slots

  /** Some slot of `s` carries the identifier `id`. */
  predicate HasId(s: seq<Slot>, id: SlotId) {
    exists i :: 0 <= i < |s| && s[i].id == id
  }

  /** `x in s`: some element of `s` carries the identifier of `x`. */
  predicate Contains(s: seq<Slot>, x: Slot) {
    HasId(s, x.id)
  }

  /** `Contains` is Python's `x in s`: some element of `s` equals `x` by `Slot.__eq__`. */
  lemma ContainsByEquality(s: seq<Slot>, x: Slot)
    ensures Contains(s, x) <==> exists i :: 0 <= i < |s| && SameSlot(s[i], x)
  {
    if Contains(s, x) {
      var i :| 0 <= i < |s| && s[i].id == x.id;
      assert SameSlot(s[i], x);
    }
  }

  /** No identifier occurs twice. */
  predicate DistinctIds(s: seq<Slot>) {
    forall i, j :: 0 <= i < j < |s| ==> s[i].id != s[j].id
  }

  lemma HasIdAppend(a: seq<Slot>, b: seq<Slot>, id: SlotId)
    ensures HasId(a + b, id) <==> HasId(a, id) || HasId(b, id)
  {
    if HasId(a + b, id) {
      var i :| 0 <= i < |a + b| && (a + b)[i].id == id;
      if i >= |a| {
        assert b[i - |a|].id == id;
      }
    }
    if HasId(a, id) {
      var i :| 0 <= i < |a| && a[i].id == id;
      assert (a + b)[i].id == id;
    }
    if HasId(b, id) {
      var i :| 0 <= i < |b| && b[i].id == id;
      assert (a + b)[|a| + i].id == id;
    }
  }

  lemma HasIdOf(s: seq<Slot>, x: Slot)
    requires x in s
    ensures HasId(s, x.id)
  {
    var i :| 0 <= i < |s| && s[i] == x;
  }

  // ---- the first loop: additions ----

  /** The tracked list after the first loop has seen the fresh slots `f`. */
  function AfterAdditions(t: seq<Slot>, f: seq<Slot>): (r: seq<Slot>)
    ensures |t| <= |r| && r[..|t|] == t
    decreases |f|
  {
    if f == [] then t
    else
      var p := AfterAdditions(t, f[..|f| - 1]);
      if Contains(p, f[|f| - 1]) then p else p + [f[|f| - 1]]
  }

  /**
   * The reference for what the first loop adds: the fresh slots whose
   * identifier is neither tracked nor carried by an earlier fresh slot, in
   * the fresh order.
   */
  function Arrivals(t: seq<Slot>, f: seq<Slot>): seq<Slot>
    decreases |f|
  {
    if f == [] then []
    else
      var g, x := f[..|f| - 1], f[|f| - 1];
      Arrivals(t, g) + (if Contains(t, x) || Contains(g, x) then [] else [x])
  }

  /** The identifiers that arrive are exactly the fresh identifiers not yet tracked. */
  lemma {:induction false} ArrivalIds(t: seq<Slot>, f: seq<Slot>, id: SlotId)
    ensures HasId(Arrivals(t, f), id) <==> HasId(f, id) && !HasId(t, id)
    decreases |f|
  {
    if f != [] {
      var g, x := f[..|f| - 1], f[|f| - 1];
      assert f == g + [x];
      HasIdAppend(g, [x], id);
      ArrivalIds(t, g, id);
      HasIdAppend(Arrivals(t, g), if Contains(t, x) || Contains(g, x) then [] else [x], id);
    }
  }

  /**
   * One more fresh slot looked at: it arrives exactly when the list built so
   * far, the tracked slots followed by the arrivals before it, lacks it.
   */
  lemma ArrivalsStep(t: seq<Slot>, f: seq<Slot>, i: nat)
    requires i < |f|
    ensures var a := Arrivals(t, f[..i]);
      Arrivals(t, f[..i + 1]) == a + (if Contains(t + a, f[i]) then [] else [f[i]])
  {
    var g, x := f[..i], f[i];
    assert f[..i + 1][..i] == g;
    HasIdAppend(t, Arrivals(t, g), x.id);
    ArrivalIds(t, g, x.id);
  }

  /** Every arriving slot is one of the fresh slots. */
  lemma {:induction false} ArrivalsAreFresh(t: seq<Slot>, f: seq<Slot>)
    ensures forall x :: x in Arrivals(t, f) ==> x in f
    decreases |f|
  {
    if f != [] {
      var g := f[..|f| - 1];
      ArrivalsAreFresh(t, g);
      assert forall x :: x in g ==> x in f;
    }
  }

  /** A fresh list with a duplicated identifier makes only its first slot arrive. */
  lemma {:induction false} ArrivalsDistinct(t: seq<Slot>, f: seq<Slot>)
    ensures DistinctIds(Arrivals(t, f))
    decreases |f|
  {
    if f != [] {
      var g, x := f[..|f| - 1], f[|f| - 1];
      ArrivalsDistinct(t, g);
      ArrivalIds(t, g, x.id);
    }
  }

  /** The first loop appends exactly the arrivals to the tracked list. */
  lemma {:induction false} AdditionsAppendArrivals(t: seq<Slot>, f: seq<Slot>)
    ensures AfterAdditions(t, f) == t + Arrivals(t, f)
    decreases |f|
  {
    if f != [] {
      var g, x := f[..|f| - 1], f[|f| - 1];
      AdditionsAppendArrivals(t, g);
      HasIdAppend(t, Arrivals(t, g), x.id);
      ArrivalIds(t, g, x.id);
    }
  }

  /** Nothing arrives when every fresh identifier is already tracked. */
  lemma NoArrivals(t: seq<Slot>, f: seq<Slot>)
    requires forall x :: x in f ==> Contains(t, x)
    ensures Arrivals(t, f) == []
  {
    var a := Arrivals(t, f);
    if a != [] {
      ArrivalsAreFresh(t, f);
      assert HasId(a, a[0].id);
      ArrivalIds(t, f, a[0].id);
      assert false;
    }
  }

  // ---- the second loop: removals ----

  /** The slots of `s` that the fresh list `f` still has, in their order in `s`. */
  function Retained(s: seq<Slot>, f: seq<Slot>): seq<Slot>
    decreases |s|
  {
    if s == [] then []
    else Retained(s[..|s| - 1], f) + (if Contains(f, s[|s| - 1]) then [s[|s| - 1]] else [])
  }

  /** The slots of `s` that the fresh list `f` no longer has, in their order in `s`. */
  function Departed(s: seq<Slot>, f: seq<Slot>): seq<Slot>
    decreases |s|
  {
    if s == [] then []
    else Departed(s[..|s| - 1], f) + (if Contains(f, s[|s| - 1]) then [] else [s[|s| - 1]])
  }

  /** One more slot of `s` looked at: it joins exactly one of the two lists. */
  lemma RetainedStep(s: seq<Slot>, k: nat, f: seq<Slot>)
    requires k < |s|
    ensures Retained(s[..k + 1], f) == Retained(s[..k], f) + (if Contains(f, s[k]) then [s[k]] else [])
    ensures Departed(s[..k + 1], f) == Departed(s[..k], f) + (if Contains(f, s[k]) then [] else [s[k]])
  {
    assert s[..k + 1][..k] == s[..k];
  }

  /** Every departed slot is one of the tracked slots and is missing from the fresh list. */
  lemma {:induction false} DepartedAreStale(s: seq<Slot>, f: seq<Slot>)
    ensures forall x :: x in Departed(s, f) ==> x in s && !Contains(f, x)
    decreases |s|
  {
    if s != [] {
      var init := s[..|s| - 1];
      DepartedAreStale(init, f);
      assert forall x :: x in init ==> x in s;
    }
  }

  /** Every slot of `s` is either retained or departed, none lost and none made up. */
  lemma {:induction false} RetainedDepartedPartition(s: seq<Slot>, f: seq<Slot>)
    ensures multiset(Retained(s, f)) + multiset(Departed(s, f)) == multiset(s)
    decreases |s|
  {
    if s != [] {
      RetainedDepartedPartition(s[..|s| - 1], f);
      assert s == s[..|s| - 1] + [s[|s| - 1]];
    }
  }

  lemma {:induction false} RetainedIds(s: seq<Slot>, f: seq<Slot>, id: SlotId)
    ensures HasId(Retained(s, f), id) <==> HasId(s, id) && HasId(f, id)
    decreases |s|
  {
    if s != [] {
      var init, x := s[..|s| - 1], s[|s| - 1];
      assert s == init + [x];
      HasIdAppend(init, [x], id);
      RetainedIds(init, f, id);
      HasIdAppend(Retained(init, f), if Contains(f, x) then [x] else [], id);
    }
  }

  lemma {:induction false} RetainedAppend(a: seq<Slot>, b: seq<Slot>, f: seq<Slot>)
    ensures Retained(a + b, f) == Retained(a, f) + Retained(b, f)
    ensures Departed(a + b, f) == Departed(a, f) + Departed(b, f)
    decreases |b|
  {
    if b == [] {
      assert a + b == a;
    } else {
      var init := b[..|b| - 1];
      assert (a + b)[..|a + b| - 1] == a + init;
      assert (a + b)[|a + b| - 1] == b[|b| - 1];
      RetainedAppend(a, init, f);
    }
  }

  /** A list whose identifiers are all fresh is retained whole. */
  lemma {:induction false} RetainedWhole(s: seq<Slot>, f: seq<Slot>)
    requires forall i :: 0 <= i < |s| ==> HasId(f, s[i].id)
    ensures Retained(s, f) == s && Departed(s, f) == []
    decreases |s|
  {
    if s != [] {
      var init := s[..|s| - 1];
      assert forall i :: 0 <= i < |init| ==> init[i] == s[i];
      RetainedWhole(init, f);
      assert s == init + [s[|s| - 1]];
    }
  }

  lemma {:induction false} RetainedDistinct(s: seq<Slot>, f: seq<Slot>)
    requires DistinctIds(s)
    ensures DistinctIds(Retained(s, f))
    decreases |s|
  {
    if s != [] {
      var init, x := s[..|s| - 1], s[|s| - 1];
      RetainedDistinct(init, f);
      RetainedIds(init, f, x.id);
    }
  }

  lemma DistinctAppend(a: seq<Slot>, b: seq<Slot>)
    requires DistinctIds(a) && DistinctIds(b)
    requires forall i :: 0 <= i < |b| ==> !HasId(a, b[i].id)
    ensures DistinctIds(a + b)
  {
    forall i, j | 0 <= i < j < |a + b| ensures (a + b)[i].id != (a + b)[j].id {
      if i < |a| && j >= |a| {
        assert (a + b)[j] == b[j - |a|];
        assert a[i].id != b[j - |a|].id;
      }
    }
  }

  // ---- `list.remove` ----

  /** The position of the first element equal to `x`, which the caller ensures exists. */
  function FirstIndex(s: seq<Slot>, x: Slot): (i: nat)
    requires Contains(s, x)
    ensures i < |s| && SameSlot(s[i], x) && !Contains(s[..i], x)
  {
    if SameSlot(s[0], x) then
      assert !Contains(s[..0], x);
      0
    else
      RemoveFirstTail(s, x);
      var j := FirstIndex(s[1..], x);
      FirstIndexCons(s, x, j);
      j + 1
  }

  lemma RemoveFirstTail(s: seq<Slot>, x: Slot)
    requires Contains(s, x) && !SameSlot(s[0], x)
    ensures Contains(s[1..], x)
  {
    var i :| 0 <= i < |s| && s[i].id == x.id;
    assert s[1..][i - 1].id == x.id;
  }

  lemma FirstIndexCons(s: seq<Slot>, x: Slot, j: nat)
    requires |s| > 0 && !SameSlot(s[0], x)
    requires j < |s| - 1 && SameSlot(s[1..][j], x) && !Contains(s[1..][..j], x)
    ensures SameSlot(s[j + 1], x) && !Contains(s[..j + 1], x)
  {
    assert s[1..][j] == s[j + 1];
    assert s[..j + 1] == [s[0]] + s[1..][..j];
    assert !HasId([s[0]], x.id);
    HasIdAppend([s[0]], s[1..][..j], x.id);
  }

  /** `s.remove(x)`: drops the first element equal to `x`, keeping the others in order. */
  function RemoveFirst(s: seq<Slot>, x: Slot): (r: seq<Slot>)
    requires Contains(s, x)
    ensures var i := FirstIndex(s, x); r == s[..i] + s[i + 1..]
  {
    if SameSlot(s[0], x) then
      assert FirstIndex(s, x) == 0 && s[..0] + s[1..] == s[1..];
      s[1..]
    else
      RemoveFirstTail(s, x);
      var rest := RemoveFirst(s[1..], x);
      RemoveFirstCons(s, x);
      [s[0]] + rest
  }

  /** When the head does not match, `remove` finds its element one place later than in the tail. */
  lemma RemoveFirstCons(s: seq<Slot>, x: Slot)
    requires Contains(s, x) && !SameSlot(s[0], x)
    ensures Contains(s[1..], x)
    ensures var i, j := FirstIndex(s, x), FirstIndex(s[1..], x);
      [s[0]] + (s[1..][..j] + s[1..][j + 1..]) == s[..i] + s[i + 1..]
  {
    RemoveFirstTail(s, x);
    var j := FirstIndex(s[1..], x);
    assert FirstIndex(s, x) == j + 1;
    assert [s[0]] + s[1..] == s;
    ConsSplice(s[0], s[1..], j);
  }

  lemma ConsSplice(h: Slot, t: seq<Slot>, j: nat)
    requires j < |t|
    ensures [h] + (t[..j] + t[j + 1..]) == ([h] + t)[..j + 1] + ([h] + t)[j + 2..]
  {
    assert ([h] + t)[..j + 1] == [h] + t[..j];
    assert ([h] + t)[j + 2..] == t[j + 1..];
  }

  /**
   * One step of the second loop: when the tracked list is the retained part
   * of the first `k` slots of the copy followed by the rest of the copy, and
   * slot `k` of the copy is no longer fresh, `remove` takes out exactly that
   * slot, because no retained slot shares its identifier.
   */
  lemma RemoveStep(c: seq<Slot>, k: nat, f: seq<Slot>)
    requires k < |c| && !Contains(f, c[k])
    ensures Contains(Retained(c[..k], f) + c[k..], c[k])
    ensures RemoveFirst(Retained(c[..k], f) + c[k..], c[k]) == Retained(c[..k + 1], f) + c[k + 1..]
  {
    RemoveFound(c, k, f);
    RetainedStep(c, k, f);
    assert Retained(c[..k], f) + [] == Retained(c[..k], f);
  }

  /**
   * The first slot equal to `c[k]` in the partly processed list is `c[k]`
   * itself: none of the retained slots before it shares its identifier.
   */
  lemma RemoveFound(c: seq<Slot>, k: nat, f: seq<Slot>)
    requires k < |c| && !Contains(f, c[k])
    ensures Contains(Retained(c[..k], f) + c[k..], c[k])
    ensures RemoveFirst(Retained(c[..k], f) + c[k..], c[k]) == Retained(c[..k], f) + c[k + 1..]
  {
    var kept := Retained(c[..k], f);
    var s := kept + c[k..];
    assert s[|kept|] == c[k];
    var i := FirstIndex(s, c[k]);
    if i < |kept| {
      assert s[i] == kept[i];
      RetainedIds(c[..k], f, c[k].id);
      assert false;
    } else if i > |kept| {
      ContainsPrefix(s, |kept|, i, c[k]);
      assert false;
    }
    assert s[..i] == kept && s[i + 1..] == c[k + 1..];
  }

  /** A turn of the second loop that keeps its slot preserves the loop's invariant. */
  lemma KeepStep(c: seq<Slot>, k: nat, f: seq<Slot>)
    requires k < |c| && Contains(f, c[k])
    ensures Retained(c[..k + 1], f) + c[k + 1..] == Retained(c[..k], f) + c[k..]
  {
    RetainedStep(c, k, f);
    assert c[k..] == [c[k]] + c[k + 1..];
  }

  lemma ContainsPrefix(s: seq<Slot>, j: nat, i: nat, x: Slot)
    requires j < i <= |s| && SameSlot(s[j], x)
    ensures Contains(s[..i], x)
  {
    assert s[..i][j] == s[j];
  }

  // ---- the whole reconciliation ----

  /**
   * The tracked list after both loops: the tracked slots that are still
   * fresh, in their old order, followed by the arrivals in fresh order.
   */
  function Reconciled(t: seq<Slot>, f: seq<Slot>): (r: seq<Slot>)
    ensures r == Retained(t, f) + Arrivals(t, f)
  {
    AdditionsAppendArrivals(t, f);
    RetainedAppend(t, Arrivals(t, f), f);
    ArrivalsRetained(t, f);
    Retained(AfterAdditions(t, f), f)
  }

  /** Every arriving slot is fresh, so the second loop keeps all of them. */
  lemma ArrivalsRetained(t: seq<Slot>, f: seq<Slot>)
    ensures Retained(Arrivals(t, f), f) == Arrivals(t, f)
    ensures Departed(Arrivals(t, f), f) == []
  {
    var a := Arrivals(t, f);
    forall i | 0 <= i < |a| ensures HasId(f, a[i].id) {
      assert HasId(a, a[i].id);
      ArrivalIds(t, f, a[i].id);
    }
    RetainedWhole(a, f);
  }

  /**
   * The slots the second loop reports removed are exactly the departed
   * tracked ones, in tracked order: no arrival is ever removed.
   */
  lemma ReconciledShape(t: seq<Slot>, f: seq<Slot>)
    ensures Departed(AfterAdditions(t, f), f) == Departed(t, f)
  {
    AdditionsAppendArrivals(t, f);
    RetainedAppend(t, Arrivals(t, f), f);
    ArrivalsRetained(t, f);
  }

  /**
   * After a successful cycle the tracked identifiers are exactly the fresh
   * ones: every fresh slot is tracked, and every tracked slot is fresh.
   */
  lemma ReconciledIds(t: seq<Slot>, f: seq<Slot>, id: SlotId)
    ensures HasId(Reconciled(t, f), id) <==> HasId(f, id)
  {
    ReconciledShape(t, f);
    HasIdAppend(Retained(t, f), Arrivals(t, f), id);
    RetainedIds(t, f, id);
    ArrivalIds(t, f, id);
  }

  /** A tracked list without duplicate identifiers keeps none, whatever duplicates the fresh list has. */
  lemma ReconciledDistinct(t: seq<Slot>, f: seq<Slot>)
    requires DistinctIds(t)
    ensures DistinctIds(Reconciled(t, f))
  {
    ReconciledShape(t, f);
    RetainedDistinct(t, f);
    ArrivalsDistinct(t, f);
    var kept, arrived := Retained(t, f), Arrivals(t, f);
    forall i | 0 <= i < |arrived| ensures !HasId(kept, arrived[i].id) {
      assert HasId(arrived, arrived[i].id);
      ArrivalIds(t, f, arrived[i].id);
      RetainedIds(t, f, arrived[i].id);
    }
    DistinctAppend(kept, arrived);
  }

  /**
   * A second cycle with the same fresh list reports nothing and changes
   * nothing.
   */
  lemma ReconcileIdempotent(t: seq<Slot>, f: seq<Slot>)
    ensures Arrivals(Reconciled(t, f), f) == []
    ensures Departed(Reconciled(t, f), f) == []
    ensures Reconciled(Reconciled(t, f), f) == Reconciled(t, f)
  {
    var r := Reconciled(t, f);
    forall x | x in f ensures Contains(r, x) {
      HasIdOf(f, x);
      ReconciledIds(t, f, x.id);
    }
    NoArrivals(r, f);
    forall i | 0 <= i < |r| ensures HasId(f, r[i].id) {
      assert HasId(r, r[i].id);
      ReconciledIds(t, f, r[i].id);
    }
    RetainedWhole(r, f);
    ReconciledShape(r, f);
  }
}

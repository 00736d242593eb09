/** The per-vendor inspection filter of `/inspections`: a date window on inspections and a
    text/code selection on their violations. */
module InspectionFilter {
  import opened Wrappers
  import opened Texts
  import opened OrderedMaps
  import opened Records
  import opened Params

  /** The request arguments the filter reads. */
  datatype Criteria = Criteria(before: Option<Date>, after: Option<Date>, text: Option<string>, code: Option<string>)

  function CriteriaOf(args: InspectionsArgs): Criteria
  {
    Criteria(args.before, args.after, args.violationText, args.violationCode)
  }

  /** The date window, inclusive at both ends; an absent bound does not restrict. */
  predicate InWindow(d: Date, c: Criteria)
  {
    (c.before.None? || d <= c.before.value) && (c.after.None? || d >= c.after.value)
  }

  /** A violation is kept when the text occurs in its observation, or the code occurs in its code,
      or neither text nor code was asked for. */
  predicate Keep(v: Violation, c: Criteria)
  {
    || (c.text.Some? && Contains(v.observation, c.text.value))
    || (c.code.Some? && Contains(v.code, c.code.value))
    || (c.text.None? && c.code.None?)
  }

  /** The kept violations, in their original order. */
  function Select(vs: seq<Violation>, c: Criteria): seq<Violation>
    decreases |vs|
  {
    if |vs| == 0 then []
    else Select(vs[..|vs| - 1], c) + (if Keep(vs[|vs| - 1], c) then [vs[|vs| - 1]] else [])
  }

  /** The emitted form of one inspection. */
  function Entry(i: Inspection, c: Criteria): InspectionEntry
  {
    InspectionEntry(i.date, Select(i.violations, c))
  }

  /** The `inspections` table built for one vendor: every inspection inside the window,
      keyed by its position in the vendor's list. */
  function Emitted(ins: seq<Inspection>, c: Criteria): (r: OrderedMap<nat, InspectionEntry>)
    ensures Valid(r)
    decreases |ins|
  {
    if |ins| == 0 then Empty()
    else
      var prev := Emitted(ins[..|ins| - 1], c);
      var last := |ins| - 1;
      if InWindow(ins[last].date, c) then Put(prev, last, Entry(ins[last], c)) else prev
  }

  // ---------------------------------------------------------------------------
  // Violation selection

  /** Selection distributes over concatenation: the kept violations of a prefix come before
      those of the rest, so the original order is kept. */
  lemma {:induction false} SelectAppend(a: seq<Violation>, b: seq<Violation>, c: Criteria)
    ensures Select(a + b, c) == Select(a, c) + Select(b, c)
    decreases |b|
  {
    if |b| == 0 {
      assert a + b == a;
    } else {
      var b' := b[..|b| - 1];
      assert (a + b)[..|a + b| - 1] == a + b';
      assert (a + b)[|a + b| - 1] == b[|b| - 1];
      SelectAppend(a, b', c);
    }
  }

  /** A violation is in the selection exactly when it is one of the inspection's violations and is kept. */
  lemma {:induction false} SelectMembers(vs: seq<Violation>, c: Criteria)
    ensures forall v :: v in Select(vs, c) <==> v in vs && Keep(v, c)
    decreases |vs|
  {
    if |vs| > 0 {
      var init := vs[..|vs| - 1];
      SelectMembers(init, c);
      assert vs == init + [vs[|vs| - 1]];
      forall v ensures v in vs <==> v in init || v == vs[|vs| - 1] {
      }
    }
  }

  /** When no violation is kept the selection is empty. */
  lemma {:induction false} SelectNone(vs: seq<Violation>, c: Criteria)
    requires forall v :: v in vs ==> !Keep(v, c)
    ensures Select(vs, c) == []
    decreases |vs|
  {
    if |vs| > 0 {
      assert vs[|vs| - 1] in vs;
      SelectNone(vs[..|vs| - 1], c);
    }
  }

  /** Without text or code every violation is kept, unchanged and in order. */
  lemma {:induction false} SelectAll(vs: seq<Violation>, c: Criteria)
    requires c.text.None? && c.code.None?
    ensures Select(vs, c) == vs
    decreases |vs|
  {
    if |vs| > 0 {
      SelectAll(vs[..|vs| - 1], c);
      assert vs == vs[..|vs| - 1] + [vs[|vs| - 1]];
    }
  }

  /** Selecting again keeps everything that was selected. */
  lemma {:induction false} SelectIdempotent(vs: seq<Violation>, c: Criteria)
    ensures Select(Select(vs, c), c) == Select(vs, c)
    decreases |vs|
  {
    if |vs| > 0 {
      var init := vs[..|vs| - 1];
      var last := vs[|vs| - 1];
      SelectIdempotent(init, c);
      var tail := if Keep(last, c) then [last] else [];
      SelectAppend(Select(init, c), tail, c);
      if Keep(last, c) {
        assert Select([last], c) == Select([], c) + [last] by {
          assert [last][..0] == [];
        }
      }
    }
  }

  // ---------------------------------------------------------------------------
  // The emitted table

  /** An inspection is emitted exactly when its date is inside the window, keyed by its position,
      with its own date and its selected violations. */
  lemma {:induction false} EmittedMembers(ins: seq<Inspection>, c: Criteria)
    ensures forall k: nat :: k in Emitted(ins, c).entries <==> k < |ins| && InWindow(ins[k].date, c)
    ensures forall k: nat :: k in Emitted(ins, c).entries ==> Emitted(ins, c).entries[k] == Entry(ins[k], c)
    decreases |ins|
  {
    if |ins| > 0 {
      var init := ins[..|ins| - 1];
      EmittedMembers(init, c);
      assert forall k :: 0 <= k < |init| ==> init[k] == ins[k];
    }
  }

  /** The keys of the emitted table are positions of the list, in strictly increasing order. */
  lemma {:induction false} EmittedOrder(ins: seq<Inspection>, c: Criteria)
    ensures forall i :: 0 <= i < |Emitted(ins, c).keys| ==> Emitted(ins, c).keys[i] < |ins|
    ensures forall i, j :: 0 <= i < j < |Emitted(ins, c).keys| ==> Emitted(ins, c).keys[i] < Emitted(ins, c).keys[j]
    decreases |ins|
  {
    if |ins| > 0 {
      var init := ins[..|ins| - 1];
      EmittedOrder(init, c);
      var prev := Emitted(init, c);
      if InWindow(ins[|ins| - 1].date, c) {
        assert |ins| - 1 !in prev.entries;
      }
    }
  }

  /** An inspection inside the window is emitted even when none of its violations is kept. */
  lemma EmittedWithoutMatches(ins: seq<Inspection>, c: Criteria, k: nat)
    requires k < |ins| && InWindow(ins[k].date, c)
    requires forall v :: v in ins[k].violations ==> !Keep(v, c)
    ensures k in Emitted(ins, c).entries
    ensures Emitted(ins, c).entries[k] == InspectionEntry(ins[k].date, [])
  {
    EmittedMembers(ins, c);
    SelectNone(ins[k].violations, c);
  }

  /** `validate` accepts `before`/`after` exactly when the date window they describe holds some date. */
  lemma DateOrderValidIffWindowNonEmpty(before: Option<Date>, after: Option<Date>)
    ensures DateOrderValid(before, after) <==> exists d :: InWindow(d, Criteria(before, after, None, None))
  {
    var c := Criteria(before, after, None, None);
    if DateOrderValid(before, after) {
      var d := if after.Some? then after.value else if before.Some? then before.value else 0;
      assert InWindow(d, c);
    }
  }

  /** The filter loop of `/inspections` for one vendor's inspection list. */
  method FilterInspections(ins: seq<Inspection>, c: Criteria) returns (out: OrderedMap<nat, InspectionEntry>)
    ensures out == Emitted(ins, c)
  {
    out := Empty();
    for index := 0 to |ins|
      invariant out == Emitted(ins[..index], c)
    {
      assert ins[..index + 1][..index] == ins[..index];
      var inspection := ins[index];
      if c.before.Some? && inspection.date > c.before.value {
        continue;
      }
      if c.after.Some? && inspection.date < c.after.value {
        continue;
      }
      var kept := [];
      for j := 0 to |inspection.violations|
        invariant kept == Select(inspection.violations[..j], c)
      {
        assert inspection.violations[..j + 1][..j] == inspection.violations[..j];
        var violation := inspection.violations[j];
        if c.text.Some? && Contains(violation.observation, c.text.value) {
          kept := kept + [violation];
        } else if c.code.Some? && Contains(violation.code, c.code.value) {
          kept := kept + [violation];
        } else if c.text.None? && c.code.None? {
          kept := kept + [violation];
        }
      }
      assert inspection.violations[..|inspection.violations|] == inspection.violations;
      out := Put(out, index, InspectionEntry(inspection.date, kept));
    }
    assert ins[..|ins|] == ins;
  }
}

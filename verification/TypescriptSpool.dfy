/** The Telegram worker's spool over whole runs: numbers issued from what the directory shows, names
    removed in any order, and the sorted listing that is replayed. */
module TypescriptSpool {
  import opened Prelude
  import opened SpoolNames
  import opened Listing
  import opened NameOrder

  const TWENTY_DIGITS: nat := 100_000_000_000_000_000_000

  /** The names pending() looks at. */
  function Matching(names: seq<string>): set<string> { set n | n in names && MatchesPattern(n) }

  /** pending()'s names: filtered, then sorted. */
  method PendingNames(names: seq<string>) returns (sorted: seq<string>)
    ensures sorted == Sorted(Matching(names))
  {
    var kept := [];
    for i := 0 to |names|
      invariant forall n :: n in kept <==> n in names[..i] && MatchesPattern(n)
    {
      assert names[..i + 1] == names[..i] + [names[i]];
      if MatchesPattern(names[i]) {
        kept := kept + [names[i]];
      }
    }
    assert names[..|names|] == names;
    sorted := SortStrings(kept);
    SortedIs(Matching(names), sorted);
  }

  /** `queue` is what ought to be replayed: the events appended with a number of twenty digits, in that
      order, without those acknowledged. */
  datatype State = State(names: seq<string>, queue: seq<string>)

  const INITIAL: State := State([], [])

  datatype Step = Append(sequence: nat, suffix: string) | Ack(name: string)

  function Without(names: seq<string>, name: string): seq<string> {
    if names == [] then []
    else (if names[0] == name then [] else [names[0]]) + Without(names[1..], name)
  }

  /** The number is the one NextBigSequence finds. */
  ghost predicate Enabled(s: State, step: Step) {
    step.Append? ==>
      && step.sequence >= 1 && OneAboveMaximum(s.names, CapturedSequence, step.sequence)
      && |step.suffix| == 24 && IsHex(step.suffix)
  }

  function After(s: State, step: Step): State {
    match step
    case Append(sequence, suffix) =>
      var name := FileName(EventId(sequence, suffix));
      State(if name in s.names then s.names else s.names + [name],
            if sequence < TWENTY_DIGITS then s.queue + [name] else s.queue)
    case Ack(name) => State(Without(s.names, name), Without(s.queue, name))
  }

  ghost predicate Leads(s: State, steps: seq<Step>, t: State)
    decreases |steps|
  {
    if steps == [] then s == t else Enabled(s, steps[0]) && Leads(After(s, steps[0]), steps[1..], t)
  }

  // ---- the invariant -----------------------------------------------------------

  ghost predicate Inv(s: State) { Ascending(s.queue) && Lists(s.queue, Matching(s.names)) }

  lemma {:induction false} WithoutMembers(names: seq<string>, name: string)
    ensures forall n :: n in Without(names, name) <==> n in names && n != name
  {
    if names != [] {
      WithoutMembers(names[1..], name);
    }
  }

  lemma {:induction false} WithoutAscends(names: seq<string>, name: string)
    requires Ascending(names)
    ensures Ascending(Without(names, name))
  {
    if names != [] {
      WithoutAscends(names[1..], name);
      WithoutMembers(names[1..], name);
      var rest := Without(names[1..], name);
      forall i | 0 <= i < |rest|
        ensures Less(names[0], rest[i])
      {
        assert rest[i] in rest;
        var k :| 0 <= k < |names[1..]| && names[1..][k] == rest[i];
        assert names[k + 1] == rest[i];
      }
    }
  }

  lemma AppendKeeps(s: State, sequence: nat, suffix: string)
    requires Inv(s) && Enabled(s, Append(sequence, suffix))
    ensures Inv(After(s, Append(sequence, suffix)))
  {
    var name := FileName(EventId(sequence, suffix));
    var t := After(s, Append(sequence, suffix));
    CaptureRoundTrip(sequence, suffix);
    assert MatchesPattern(name) <==> sequence < TWENTY_DIGITS;
    assert forall n :: n in t.names <==> n in s.names || n == name;
    if sequence < TWENTY_DIGITS {
      forall i | 0 <= i < |s.queue|
        ensures Less(s.queue[i], name)
      {
        assert s.queue[i] in s.queue;
        SmallerCaptureSortsFirst(s.queue[i], sequence, suffix);
      }
    }
  }

  lemma AckKeeps(s: State, name: string)
    requires Inv(s)
    ensures Inv(After(s, Ack(name)))
  {
    WithoutMembers(s.names, name);
    WithoutMembers(s.queue, name);
    WithoutAscends(s.queue, name);
  }

  lemma {:induction false} RunKeeps(s: State, steps: seq<Step>, t: State)
    requires Inv(s) && Leads(s, steps, t)
    ensures Inv(t)
    decreases |steps|
  {
    if steps != [] {
      match steps[0] {
        case Append(sequence, suffix) => AppendKeeps(s, sequence, suffix);
        case Ack(name) => AckKeeps(s, name);
      }
      RunKeeps(After(s, steps[0]), steps[1..], t);
    }
  }

  // ---- the theorems ---------------------------------------------------------------

  /** In every run, with acknowledgements in any order, the sorted listing is the queue: append order, without
      what was acknowledged, of exactly the events whose number has at most twenty digits. */
  lemma ListingIsQueue(steps: seq<Step>, s: State)
    requires Leads(INITIAL, steps, s)
    ensures Sorted(Matching(s.names)) == s.queue
  {
    RunKeeps(INITIAL, steps, s);
    SortedIs(Matching(s.names), s.queue);
  }

  /** An appended event is replayed, and last, if and only if its number is below 10^20. From 10^20 on its
      file is invisible, and the number it carries is issued again. */
  lemma ReplayedIff(steps: seq<Step>, s: State, sequence: nat, suffix: string)
    requires Leads(INITIAL, steps, s) && Enabled(s, Append(sequence, suffix))
    ensures var name, t := FileName(EventId(sequence, suffix)), After(s, Append(sequence, suffix));
            && (name in Sorted(Matching(t.names)) <==> sequence < 100_000_000_000_000_000_000)
            && (sequence < 100_000_000_000_000_000_000 ==>
                  Sorted(Matching(t.names)) == Sorted(Matching(s.names)) + [name])
            && (sequence >= 100_000_000_000_000_000_000 ==>
                  && Sorted(Matching(t.names)) == Sorted(Matching(s.names))
                  && forall again: nat :: again >= 1 ==> (OneAboveMaximum(t.names, CapturedSequence, again) <==> again == sequence))
  {
    var name, t := FileName(EventId(sequence, suffix)), After(s, Append(sequence, suffix));
    RunKeeps(INITIAL, steps, s);
    AppendKeeps(s, sequence, suffix);
    SortedIs(Matching(s.names), s.queue);
    SortedIs(Matching(t.names), t.queue);
    CaptureRoundTrip(sequence, suffix);
    if sequence >= TWENTY_DIGITS {
      SameMaximum(s.names, t.names, name, sequence);
    }
  }

  /** A name that is not captured does not change the next number. */
  lemma SameMaximum(names: seq<string>, more: seq<string>, name: string, sequence: nat)
    requires forall n :: n in more <==> n in names || n == name
    requires CapturedSequence(name).None? && sequence >= 1 && OneAboveMaximum(names, CapturedSequence, sequence)
    ensures forall again: nat :: again >= 1 ==> (OneAboveMaximum(more, CapturedSequence, again) <==> again == sequence)
  {
    assert OneAboveMaximum(more, CapturedSequence, sequence);
    forall again: nat | again >= 1 && OneAboveMaximum(more, CapturedSequence, again)
      ensures again == sequence
    {
    }
  }
}

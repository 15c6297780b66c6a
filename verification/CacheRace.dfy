/**
 The cache of contracts by slug when calls are not one at a time. A lookup reads the cache, then the row,
 then fills the cache, and any writes, invalidations and expiries may happen between these steps.
 */
module CacheRace {
  import opened Text
  import opened ReadModel

  type Reader = nat

  /** Where a lookup stands: it found nothing in the cache, or it holds the row it is about to cache. */
  datatype Progress = Missed(slug: string) | Loaded(slug: string, contract: Contract)

  datatype State = State(rows: map<string, Contract>, cache: map<string, Contract>, readers: map<Reader, Progress>)

  /** Writing a row, or deleting it; a service invalidates the slug some time after its write. */
  datatype Step =
    | Write(slug: string, row: Option<Contract>)
    | Invalidate(slug: string)
    | Expire(slug: string)
    | ReadCache(reader: Reader, slug: string)
    | ReadRow(reader: Reader)
    | Fill(reader: Reader)

  const EMPTY := State(map[], map[], map[])

  predicate Shows(entries: map<string, Contract>, slug: string) {
    slug in entries && entries[slug].status.Approved?
  }

  function Next(s: State, step: Step): State {
    match step
    case Write(slug, row) => s.(rows := if row.Some? then s.rows[slug := row.value] else s.rows - {slug})
    case Invalidate(slug) => s.(cache := s.cache - {slug})
    case Expire(slug) => s.(cache := s.cache - {slug})
    case ReadCache(reader, slug) =>
      if Shows(s.cache, slug) then s.(readers := s.readers - {reader})
      else s.(readers := s.readers[reader := Missed(slug)])
    case ReadRow(reader) =>
      if reader !in s.readers || !s.readers[reader].Missed? then s
      else if Shows(s.rows, s.readers[reader].slug) then
        s.(readers := s.readers[reader := Loaded(s.readers[reader].slug, s.rows[s.readers[reader].slug])])
      else s.(readers := s.readers - {reader})
    case Fill(reader) =>
      if reader !in s.readers || !s.readers[reader].Loaded? then s
      else s.(cache := s.cache[s.readers[reader].slug := s.readers[reader].contract], readers := s.readers - {reader})
  }

  function After(steps: seq<Step>): State {
    if steps == [] then EMPTY else Next(After(steps[..|steps| - 1]), steps[|steps| - 1])
  }

  /** What a step returns to a caller of the lookup: a contract from the cache, or the one it has just cached. */
  function Returned(s: State, step: Step): Option<Progress> {
    match step
    case ReadCache(reader, slug) => if Shows(s.cache, slug) then Some(Loaded(slug, s.cache[slug])) else None
    case Fill(reader) => if reader in s.readers && s.readers[reader].Loaded? then Some(s.readers[reader]) else None
    case _ => None
  }

  // ---------- under every interleaving ----------

  /** After some number of the steps the row of the slug was this one, approved. */
  ghost predicate WasShown(steps: seq<Step>, slug: string, c: Contract) {
    exists i :: 0 <= i <= |steps| && ShownAt(steps, i, slug, c)
  }

  predicate ShownAt(steps: seq<Step>, i: nat, slug: string, c: Contract)
    requires i <= |steps|
  {
    Shows(After(steps[..i]).rows, slug) && After(steps[..i]).rows[slug] == c
  }

  /** Whatever is cached or about to be cached was an approved row at some earlier moment. */
  ghost predicate OnlyShown(steps: seq<Step>) {
    var s := After(steps);
    && (forall slug :: slug in s.cache ==> WasShown(steps, slug, s.cache[slug]))
    && (forall r :: r in s.readers && s.readers[r].Loaded? ==>
         WasShown(steps, s.readers[r].slug, s.readers[r].contract))
  }

  lemma StillShown(steps: seq<Step>, step: Step, slug: string, c: Contract)
    requires WasShown(steps, slug, c)
    ensures WasShown(steps + [step], slug, c)
  {
    var i :| 0 <= i <= |steps| && ShownAt(steps, i, slug, c);
    assert (steps + [step])[..i] == steps[..i];
    assert ShownAt(steps + [step], i, slug, c);
  }

  lemma ShownNow(steps: seq<Step>, slug: string)
    requires Shows(After(steps).rows, slug)
    ensures WasShown(steps, slug, After(steps).rows[slug])
  {
    assert steps[..|steps|] == steps;
    assert ShownAt(steps, |steps|, slug, After(steps).rows[slug]);
  }

  lemma StepShowsCached(steps: seq<Step>, step: Step, slug: string)
    requires OnlyShown(steps) && slug in Next(After(steps), step).cache
    ensures WasShown(steps + [step], slug, Next(After(steps), step).cache[slug])
  {
    var s, t := After(steps), Next(After(steps), step);
    if slug in s.cache && t.cache[slug] == s.cache[slug] {
      StillShown(steps, step, slug, s.cache[slug]);
    } else {
      StillShown(steps, step, slug, s.readers[step.reader].contract);
    }
  }

  lemma StepShowsLoaded(steps: seq<Step>, step: Step, r: Reader)
    requires OnlyShown(steps) && r in Next(After(steps), step).readers && Next(After(steps), step).readers[r].Loaded?
    ensures var t := Next(After(steps), step); WasShown(steps + [step], t.readers[r].slug, t.readers[r].contract)
  {
    var s, t := After(steps), Next(After(steps), step);
    if !(r in s.readers && s.readers[r] == t.readers[r]) {
      ShownNow(steps, t.readers[r].slug);
    }
    StillShown(steps, step, t.readers[r].slug, t.readers[r].contract);
  }

  lemma StepShows(steps: seq<Step>, step: Step)
    requires OnlyShown(steps)
    ensures OnlyShown(steps + [step])
  {
    AfterOne(steps, step);
    var t := Next(After(steps), step);
    forall slug | slug in t.cache ensures WasShown(steps + [step], slug, t.cache[slug]) {
      StepShowsCached(steps, step, slug);
    }
    forall r | r in t.readers && t.readers[r].Loaded?
      ensures WasShown(steps + [step], t.readers[r].slug, t.readers[r].contract) {
      StepShowsLoaded(steps, step, r);
    }
  }

  lemma {:induction false} AlwaysShown(steps: seq<Step>)
    ensures OnlyShown(steps)
  {
    if steps != [] {
      AlwaysShown(steps[..|steps| - 1]);
      StepShows(steps[..|steps| - 1], steps[|steps| - 1]);
      assert steps == steps[..|steps| - 1] + [steps[|steps| - 1]];
    }
  }

  /**
   Under every interleaving of writes, invalidations, expiries and the steps of any number of lookups, a
   lookup only ever returns a contract that was the approved row of its slug at some earlier moment.
   */
  lemma ReturnsOnceApproved(steps: seq<Step>, step: Step)
    ensures Returned(After(steps), step).Some? ==>
      Returned(After(steps), step).value.Loaded?
      && WasShown(steps, Returned(After(steps), step).value.slug, Returned(After(steps), step).value.contract)
  {
    AlwaysShown(steps);
  }

  // ---------- how long an old contract can last ----------

  /** No lookup holds a row of this slug. */
  ghost predicate NoneLoaded(s: State, slug: string) {
    forall r :: r in s.readers && s.readers[r].Loaded? ==> s.readers[r].slug != slug
  }

  function RowOf(s: State, slug: string): Option<Contract> {
    if slug in s.rows then Some(s.rows[slug]) else None
  }

  /** The step is a write that gives the slug another row than it has. */
  predicate Changes(s: State, step: Step, slug: string) {
    RowOf(Next(s, step), slug) != RowOf(s, slug)
  }

  predicate Drops(step: Step, slug: string) {
    (step.Invalidate? || step.Expire?) && step.slug == slug
  }

  /** From the start on, no change of the row falls between a lookup's reading it and its filling the cache. */
  ghost predicate Undisturbed(start: nat, steps: seq<Step>, slug: string) {
    forall i :: start <= i < |steps| && Changes(After(steps[..i]), steps[i], slug) ==>
      NoneLoaded(After(steps[..i]), slug)
  }

  /** The last change of the row has not been followed by dropping the cached contract. */
  predicate Pending(start: nat, steps: seq<Step>, slug: string) {
    |steps| > start
    && (Changes(After(steps[..|steps| - 1]), steps[|steps| - 1], slug)
        || (!Drops(steps[|steps| - 1], slug) && Pending(start, steps[..|steps| - 1], slug)))
  }

  predicate Current(s: State, slug: string, c: Contract) {
    slug in s.rows && s.rows[slug] == c
  }

  /** What lookups hold of the slug is its row; so is what is cached, unless an invalidation is due. */
  ghost predicate Fresh(s: State, slug: string, pending: bool) {
    && (forall r :: r in s.readers && s.readers[r].Loaded? && s.readers[r].slug == slug ==>
          Current(s, slug, s.readers[r].contract))
    && (slug in s.cache && !pending ==> Current(s, slug, s.cache[slug]))
  }

  /** Neither cached nor held by any lookup. */
  ghost predicate Settled(s: State, slug: string) {
    slug !in s.cache && NoneLoaded(s, slug)
  }

  lemma FreshStep(s: State, step: Step, slug: string, pending: bool)
    requires Fresh(s, slug, pending) && (Changes(s, step, slug) ==> NoneLoaded(s, slug))
    ensures Fresh(Next(s, step), slug, Changes(s, step, slug) || (!Drops(step, slug) && pending))
  {
  }

  lemma UndisturbedBefore(start: nat, steps: seq<Step>, n: nat, slug: string)
    requires start <= n <= |steps| && Undisturbed(start, steps, slug)
    ensures Undisturbed(start, steps[..n], slug)
  {
    var before := steps[..n];
    forall i | start <= i < n && Changes(After(before[..i]), before[i], slug)
      ensures NoneLoaded(After(before[..i]), slug) {
      assert before[..i] == steps[..i];
    }
  }

  /**
   Let a slug be settled at some moment, as before the first step. If from then on no change of the row
   falls between a lookup's two last steps, and the last change has been followed by its invalidation,
   then what is cached, and what is about to be, is the current row.
   */
  lemma {:induction false} SettledIsCurrent(start: nat, steps: seq<Step>, slug: string)
    requires start <= |steps| && Settled(After(steps[..start]), slug) && Undisturbed(start, steps, slug)
    ensures Fresh(After(steps), slug, Pending(start, steps, slug))
    decreases |steps|
  {
    if |steps| == start {
      assert steps[..start] == steps;
    } else {
      var n := |steps| - 1;
      assert steps[..n][..start] == steps[..start];
      UndisturbedBefore(start, steps, n, slug);
      SettledIsCurrent(start, steps[..n], slug);
      FreshStep(After(steps[..n]), steps[n], slug, Pending(start, steps[..n], slug));
    }
  }

  /** A change while a lookup holds the row leaves the lookup with an old one. */
  lemma ChangeBreaks(s: State, step: Step, slug: string, pending: bool)
    requires Fresh(s, slug, pending) && Changes(s, step, slug) && !NoneLoaded(s, slug)
    ensures !Fresh(Next(s, step), slug, true)
  {
    var r :| r in s.readers && s.readers[r].Loaded? && s.readers[r].slug == slug;
    assert !Current(Next(s, step), slug, s.readers[r].contract);
  }

  /** The condition is exact: at every moment all is current if and only if no lookup was disturbed. */
  lemma CurrentExactly(start: nat, steps: seq<Step>, slug: string)
    requires start <= |steps| && Settled(After(steps[..start]), slug)
    ensures Undisturbed(start, steps, slug) <==>
      forall n :: start <= n <= |steps| ==> Fresh(After(steps[..n]), slug, Pending(start, steps[..n], slug))
  {
    if Undisturbed(start, steps, slug) {
      forall n | start <= n <= |steps| ensures Fresh(After(steps[..n]), slug, Pending(start, steps[..n], slug)) {
        assert steps[..n][..start] == steps[..start];
        UndisturbedBefore(start, steps, n, slug);
        SettledIsCurrent(start, steps[..n], slug);
      }
    } else {
      var i :| start <= i < |steps| && Changes(After(steps[..i]), steps[i], slug)
          && !NoneLoaded(After(steps[..i]), slug);
      AfterPrefix(steps, i);
      if Fresh(After(steps[..i]), slug, Pending(start, steps[..i], slug)) {
        ChangeBreaks(After(steps[..i]), steps[i], slug, Pending(start, steps[..i], slug));
        assert !Fresh(After(steps[..i + 1]), slug, Pending(start, steps[..i + 1], slug));
      }
    }
  }

  lemma AfterPrefix(steps: seq<Step>, i: nat)
    requires i < |steps|
    ensures After(steps[..i + 1]) == Next(After(steps[..i]), steps[i])
  {
    assert steps[..i + 1] == steps[..i] + [steps[i]];
    AfterOne(steps[..i], steps[i]);
  }

  // ---------- what a disturbance leads to ----------

  /** Were the slug invalidated and the lookup then finished, the cache would hold something else than the row. */
  predicate LeavesStale(s: State, slug: string, r: Reader) {
    var t := Next(Next(s, Invalidate(slug)), Fill(r));
    slug in t.cache && !Current(t, slug, t.cache[slug])
  }

  lemma FreshNeverStale(s: State, slug: string, pending: bool, r: Reader)
    requires Fresh(s, slug, pending)
    ensures !LeavesStale(s, slug, r)
  {
  }

  lemma HeldOldIsStale(s: State, slug: string, r: Reader)
    requires r in s.readers && s.readers[r].Loaded? && s.readers[r].slug == slug
    requires !Current(s, slug, s.readers[r].contract)
    ensures LeavesStale(s, slug, r)
  {
  }

  /**
   Seen from the cache alone: invalidating the slug and letting any lookup finish never leaves an old
   contract, whenever this is done, if and only if no lookup was disturbed.
   */
  lemma StaleExactly(start: nat, steps: seq<Step>, slug: string)
    requires start <= |steps| && Settled(After(steps[..start]), slug)
    ensures Undisturbed(start, steps, slug) <==>
      forall n, r :: start <= n <= |steps| ==> !LeavesStale(After(steps[..n]), slug, r)
  {
    if Undisturbed(start, steps, slug) {
      CurrentExactly(start, steps, slug);
      forall n, r | start <= n <= |steps| ensures !LeavesStale(After(steps[..n]), slug, r) {
        FreshNeverStale(After(steps[..n]), slug, Pending(start, steps[..n], slug), r);
      }
    } else {
      var i :| start <= i < |steps| && Changes(After(steps[..i]), steps[i], slug)
          && !NoneLoaded(After(steps[..i]), slug);
      DisturbedIsStale(steps, i, slug);
    }
  }

  lemma DisturbedIsStale(steps: seq<Step>, i: nat, slug: string)
    requires i < |steps| && Changes(After(steps[..i]), steps[i], slug) && !NoneLoaded(After(steps[..i]), slug)
    ensures exists n, r :: i <= n <= i + 1 && LeavesStale(After(steps[..n]), slug, r)
  {
    var s := After(steps[..i]);
    var r :| r in s.readers && s.readers[r].Loaded? && s.readers[r].slug == slug;
    AfterPrefix(steps, i);
    if Current(s, slug, s.readers[r].contract) {
      HeldOldIsStale(After(steps[..i + 1]), slug, r);
    } else {
      HeldOldIsStale(s, slug, r);
    }
  }

  /**
   Otherwise an old contract can outlive its invalidation: a lookup reads the row, the project is
   archived and the slug invalidated, and only then the lookup fills the cache. Every later lookup is
   shown the project as approved, though its row is not.
   */
  lemma OutlivesInvalidation(slug: string, approved: Contract, archived: Contract, first: Reader, second: Reader)
    requires approved.status.Approved? && !archived.status.Approved?
    ensures var steps := [Write(slug, Some(approved)), ReadCache(first, slug), ReadRow(first),
                          Write(slug, Some(archived)), Invalidate(slug), Fill(first)];
      && !Shows(After(steps).rows, slug) && !Pending(0, steps, slug) && !Undisturbed(0, steps, slug)
      && Returned(After(steps), ReadCache(second, slug)) == Some(Loaded(slug, approved))
  {
    var s1 := [Write(slug, Some(approved))];
    var s2 := s1 + [ReadCache(first, slug)];
    var s3 := s2 + [ReadRow(first)];
    var s4 := s3 + [Write(slug, Some(archived))];
    var s5 := s4 + [Invalidate(slug)];
    var s6 := s5 + [Fill(first)];
    AfterOne([], Write(slug, Some(approved)));
    AfterOne(s1, ReadCache(first, slug));
    AfterOne(s2, ReadRow(first));
    AfterOne(s3, Write(slug, Some(archived)));
    AfterOne(s4, Invalidate(slug));
    AfterOne(s5, Fill(first));
    assert s6[..5] == s5 && s6[..3] == s3;
    assert Changes(After(s3), s6[3], slug) && first in After(s3).readers && After(s3).readers[first].Loaded?;
    assert s6 == [Write(slug, Some(approved)), ReadCache(first, slug), ReadRow(first),
                  Write(slug, Some(archived)), Invalidate(slug), Fill(first)];
    assert !Pending(0, s5, slug);
  }

  lemma AfterOne(steps: seq<Step>, step: Step)
    ensures After(steps + [step]) == Next(After(steps), step)
  {
    assert (steps + [step])[..|steps|] == steps;
  }
}

/** In how many saved batches an update can count. */
module CycleCounting {
  import opened Model
  import opened Redis
  import opened Cycle
  import opened CycleSafety

  /**
   The circumstances of the bound for update `u`. It is not added twice, every deletion reaches its window, and
   the deletions that follow a save are at least `d` apart. Saves and reads may fail.
   */
  predicate Spaced(c: Config, d: Time, u: Update, s: State, a: Action)
    requires Enabled(c, s, a)
  {
    match a
    case Arrive(v) => v == u ==> u !in s.arrived
    case DeleteEnd(ok) => KeyOf(u) !in s.phase.must
    case DeleteClock => s.phase.batch != {} && s.lastSaved.Some? ==> s.now - s.lastSaved.value >= d
    case _ => true
  }

  predicate SpacedRun(c: Config, d: Time, u: Update, s: State, run: seq<Action>)
    requires IsRun(c, s, run)
    decreases |run|
  {
    run == [] || (Spaced(c, d, u, s, run[0]) && SpacedRun(c, d, u, Apply(c, s, run[0]), run[1..]))
  }

  /** In how many saved batches the update counts. */
  function Uses(saved: seq<set<Update>>, u: Update): nat {
    if saved == [] then 0
    else Uses(saved[..|saved| - 1], u) + (if u in saved[|saved| - 1] then 1 else 0)
  }

  lemma UsesAppend(saved: seq<set<Update>>, batch: set<Update>, u: Update)
    ensures Uses(saved + [batch], u) == Uses(saved, u) + (if u in batch then 1 else 0)
  {
    assert (saved + [batch])[..|saved|] == saved;
  }

  /** The time that `n` deletions take when they are `d` apart; time does not run backwards. */
  function Span(d: Time, n: nat): (t: Time)
    ensures t >= 0
  {
    if n <= 1 || d <= 0 then 0 else Span(d, n - 1) + d
  }

  lemma {:induction false} SpanIsProduct(d: Time, n: nat)
    requires n >= 1
    ensures Span(d, n) >= (n - 1) * d
    ensures d >= 0 ==> Span(d, n) == (n - 1) * d
  {
    if n > 1 {
      SpanIsProduct(d, n - 1);
      assert (n - 1) * d == (n - 2) * d + d;
    }
  }

  /**
   Of `n` deletions that followed saves of the update, the first was not before the update's second, so that the last
   one is at least their span later.
   */
  predicate SeenBy(s: State, d: Time, u: Update, n: nat) {
    n >= 1 ==> s.lastSaved.Some? && Unix(u.timestamp) <= Unix(s.lastSaved.value - Span(d, n))
  }

  /** What is known of the update in its window: used `most` times means about to be purged. */
  predicate EntryInv(c: Config, d: Time, most: nat, s: State, u: Update) {
    var n := Uses(s.saved, u);
    && u in s.arrived
    && match s.phase
       case Stored(batch, since, made) =>
         if u in batch then 1 <= n <= most && SeenBy(s, d, u, n - 1) && Unix(u.timestamp) <= Unix(s.now)
         else n < most && SeenBy(s, d, u, n)
       case Deleting(batch, clock, must) =>
         n <= most && SeenBy(s, d, u, n) && (n == most ==> Stale(u, clock - c.retention) && KeyOf(u) in must)
       case _ => n < most && SeenBy(s, d, u, n)
  }

  /** The cycle is reading. */
  predicate Gathering(ph: Phase) {
    ph.Collecting? || ph.Scanning? || ph.Fetching?
  }

  /** What is known of the update once the cycle has read it. */
  predicate ReadInv(d: Time, most: nat, s: State, u: Update) {
    var n := Uses(s.saved, u);
    u in s.arrived && n < most && SeenBy(s, d, u, n) && Unix(u.timestamp) <= Unix(s.now)
  }

  predicate CountInv(most: nat, s: State, u: Update) {
    && Uses(s.saved, u) <= most
    && (Uses(s.saved, u) >= 1 ==> u in s.arrived)
    && (s.phase.Stored? && u in s.phase.batch ==> Uses(s.saved, u) >= 1)
  }

  ghost predicate Inv(c: Config, d: Time, most: nat, s: State, u: Update) {
    && WellKeyed(s.windows)
    && (s.lastSaved.Some? ==> s.lastSaved.value <= s.now)
    && (s.phase.Scanning? || s.phase.Fetching? ==> s.phase.clock <= s.now)
    && CountInv(most, s, u)
    && (u in Members(s.windows, KeyOf(u)) ==> EntryInv(c, d, most, s, u))
    && (Gathering(s.phase) && u in Collected(s.phase) ==> ReadInv(d, most, s, u))
  }

  lemma EntrySaves(c: Config, d: Time, most: nat, s: State, ok: bool, u: Update)
    requires Enabled(c, s, Save(ok)) && EntryInv(c, d, most, s, u)
    requires u in s.phase.p.batch ==> ReadInv(d, most, s, u)
    ensures EntryInv(c, d, most, Apply(c, s, Save(ok)), u)
  {
    var batch := s.phase.p.batch;
    UsesAppend(s.saved, batch, u);
    assert Apply(c, s, Save(ok)) == SaveAfter(s, ok);
  }

  /** The next deletion after a save is `d` later, or the first. */
  lemma SeenAgain(s: State, d: Time, u: Update, n: nat)
    requires n >= 1 && SeenBy(s, d, u, n - 1) && Unix(u.timestamp) <= Unix(s.now)
    requires s.lastSaved.Some? ==> s.lastSaved.value <= s.now && s.now - s.lastSaved.value >= d
    ensures Unix(u.timestamp) <= Unix(s.now - Span(d, n))
  {
    if n > 1 {
      UnixOrder(s.lastSaved.value - Span(d, n - 1), s.now - Span(d, n));
    }
  }

  lemma EntryAges(c: Config, d: Time, most: nat, s: State, u: Update)
    requires Span(d, most) >= c.retention && most >= 1
    requires Enabled(c, s, DeleteClock) && Spaced(c, d, u, s, DeleteClock) && EntryInv(c, d, most, s, u)
    requires u in Members(s.windows, KeyOf(u)) && (s.lastSaved.Some? ==> s.lastSaved.value <= s.now)
    ensures EntryInv(c, d, most, Apply(c, s, DeleteClock), u)
  {
    var n := Uses(s.saved, u);
    if u in s.phase.batch {
      SeenAgain(s, d, u, n);
      UnixOrder(s.now - Span(d, most), s.now - c.retention);
    } else if n >= 1 {
      UnixOrder(s.lastSaved.value - Span(d, n), s.now - Span(d, n));
    }
  }

  lemma EntryArrives(c: Config, d: Time, most: nat, s: State, u: Update)
    requires most >= 1 && CountInv(most, s, u) && u !in s.arrived
    ensures EntryInv(c, d, most, Apply(c, s, Arrive(u)), u)
  {}

  lemma EntryStep(c: Config, d: Time, most: nat, s: State, a: Action, u: Update)
    requires Span(d, most) >= c.retention && most >= 1
    requires Enabled(c, s, a) && Spaced(c, d, u, s, a) && EntryInv(c, d, most, s, u)
    requires a.Save? && u in s.phase.p.batch ==> ReadInv(d, most, s, u)
    requires s.lastSaved.Some? ==> s.lastSaved.value <= s.now
    requires u in Members(s.windows, KeyOf(u)) && u in Members(Apply(c, s, a).windows, KeyOf(u))
    ensures EntryInv(c, d, most, Apply(c, s, a), u)
  {
    match a
    case Tick(t) => UnixOrder(s.now, s.now + t);
    case Save(ok) => EntrySaves(c, d, most, s, ok, u);
    case DeleteClock => EntryAges(c, d, most, s, u);
    case _ =>
  }

  lemma ReadStep(c: Config, d: Time, most: nat, s: State, a: Action, u: Update)
    requires Enabled(c, s, a) && Spaced(c, d, u, s, a) && Inv(c, d, most, s, u)
    requires Gathering(Apply(c, s, a).phase) && u in Collected(Apply(c, s, a).phase)
    ensures ReadInv(d, most, Apply(c, s, a), u)
  {
    match a
    case Tick(t) => UnixOrder(s.now, s.now + t);
    case Fetch => UnixOrder(s.phase.clock, s.now);
    case _ =>
  }

  lemma CountStep(c: Config, d: Time, most: nat, s: State, a: Action, u: Update)
    requires Enabled(c, s, a) && CountInv(most, s, u)
    requires a.Save? && u in s.phase.p.batch ==> ReadInv(d, most, s, u)
    ensures CountInv(most, Apply(c, s, a), u)
  {
    if a.Save? {
      UsesAppend(s.saved, s.phase.p.batch, u);
    } else {
      assert Apply(c, s, a).saved == s.saved;
    }
  }

  lemma InvStep(c: Config, d: Time, most: nat, s: State, a: Action, u: Update)
    requires Span(d, most) >= c.retention && most >= 1
    requires Enabled(c, s, a) && Spaced(c, d, u, s, a) && Inv(c, d, most, s, u)
    ensures Inv(c, d, most, Apply(c, s, a), u)
  {
    var t := Apply(c, s, a);
    KeysStep(c, s, a);
    CountStep(c, d, most, s, a, u);
    if u in Members(t.windows, KeyOf(u)) {
      if u in Members(s.windows, KeyOf(u)) {
        EntryStep(c, d, most, s, a, u);
      } else {
        assert a == Arrive(u);
        EntryArrives(c, d, most, s, u);
      }
    }
    if Gathering(t.phase) && u in Collected(t.phase) {
      ReadStep(c, d, most, s, a, u);
    }
  }

  lemma {:induction false} InvRun(c: Config, d: Time, most: nat, s: State, run: seq<Action>, u: Update)
    requires Span(d, most) >= c.retention && most >= 1
    requires IsRun(c, s, run) && SpacedRun(c, d, u, s, run) && Inv(c, d, most, s, u)
    ensures Inv(c, d, most, Exec(c, s, run), u)
    decreases |run|
  {
    if run != [] {
      InvStep(c, d, most, s, run[0], u);
      InvRun(c, d, most, Apply(c, s, run[0]), run[1..], u);
    }
  }

  /**
   If `most - 1` times the distance of the deletions makes up the retention, an update counts in at most `most` saved
   batches, in every run spaced for it and whatever saves fail in between.
   */
  lemma BoundedUses(c: Config, d: Time, most: nat, start: Time, run: seq<Action>, u: Update)
    requires most >= 1 && (most - 1) * d >= c.retention
    requires IsRun(c, Init(start), run) && SpacedRun(c, d, u, Init(start), run)
    ensures Uses(Exec(c, Init(start), run).saved, u) <= most
  {
    SpanIsProduct(d, most);
    InvRun(c, d, most, Init(start), run, u);
  }

  /** With deletions the retention apart an update counts at most twice. */
  lemma AtMostTwice(c: Config, start: Time, run: seq<Action>, u: Update)
    requires IsRun(c, Init(start), run) && SpacedRun(c, c.retention, u, Init(start), run)
    ensures Uses(Exec(c, Init(start), run).saved, u) <= 2
  {
    BoundedUses(c, c.retention, 2, start, run, u);
  }
}

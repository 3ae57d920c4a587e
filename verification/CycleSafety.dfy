/** Nothing is deleted from the cache before it has been aggregated. */
module CycleSafety {
  import opened Model
  import opened Redis
  import opened Cycle

  /** How late updates arrive, and how far a deletion may be from its cycle's first read and the last full deletion. */
  datatype Limits = Limits(lag: Time, span: Time, gap: Time)

  /** The deletion about to begin will find the update old enough to remove. */
  predicate Fatal(c: Config, u: Update, s: State) {
    u in Members(s.windows, KeyOf(u)) && Stale(u, s.now - c.retention)
  }

  /**
   The circumstances under which update `u` is safe; other updates may arrive as they like. `u` arrives with a
   timestamp that is not in the future and at most `lag` old. A cycle whose deletion will find `u` stale begins that
   deletion within `span` of its first read and within `gap` of the last complete deletion, and of its reads only those
   in `flaky` have failed. Other cycles may fail and take as long as they like.
   */
  predicate Timely(c: Config, l: Limits, flaky: set<Target>, u: Update, s: State, a: Action)
    requires Enabled(c, s, a)
  {
    match a
    case Arrive(v) => v == u ==> u.timestamp <= s.now <= u.timestamp + l.lag
    case DeleteClock =>
      Fatal(c, u, s) ==>
        && s.now - s.phase.since <= l.span
        && s.now - s.lastFull <= l.gap
        && forall t :: t in Targets(c) && t !in flaky ==> t in s.phase.made
    case _ => true
  }

  predicate TimelyRun(c: Config, l: Limits, flaky: set<Target>, u: Update, s: State, run: seq<Action>)
    requires IsRun(c, s, run)
    decreases |run|
  {
    run == []
    || (Timely(c, l, flaky, u, s, run[0]) && TimelyRun(c, l, flaky, u, Apply(c, s, run[0]), run[1..]))
  }

  function Min(a: Time, b: Time): Time {
    if a < b then a else b
  }

  /**
   The limits are tight enough: what arrives after a cycle's first read is too young for its deletion, and what the last
   complete deletion left is young enough for the cycle's reads.
   */
  predicate Tight(c: Config, l: Limits) {
    l.lag + Min(l.span, l.gap) + SECOND <= c.retention && l.gap <= c.ttl - c.retention + SECOND
  }

  // ---------- Which windows a cycle reads ----------

  predicate Todo(todo: seq<Target>, k: Key) {
    exists t :: t in todo && Covers(t, k)
  }

  /** A read that does not fail will cover window `k`. */
  predicate Sure(flaky: set<Target>, todo: seq<Target>, k: Key) {
    exists t :: t in todo && t !in flaky && Covers(t, k)
  }

  lemma {:induction false} PlanExchangesEntries(pairs: seq<string>, exchanges: seq<string>, entry: (string, string))
    ensures entry in PlanExchanges(pairs, exchanges) <==> entry.0 in pairs && entry.1 in exchanges
  {
    if exchanges != [] {
      var n := |exchanges| - 1;
      PlanExchangesEntries(pairs, exchanges[..n], entry);
      PlanPairsEntries(pairs, exchanges[n], entry);
      assert exchanges == exchanges[..n] + [exchanges[n]];
    }
  }

  lemma PlanPairsEntries(pairs: seq<string>, exchange: string, entry: (string, string))
    ensures entry in PlanPairs(pairs, exchange) <==> entry.0 in pairs && entry.1 == exchange
  {
    if entry.0 in pairs && entry.1 == exchange {
      var i :| 0 <= i < |pairs| && pairs[i] == entry.0;
      assert PlanPairs(pairs, exchange)[i] == entry;
    }
  }

  lemma PlanEntries(c: Config, entry: (string, string))
    ensures entry in Plan(c.pairs, c.exchanges) <==>
              entry.0 in c.pairs && (if c.exchanges == [] then entry.1 == "" else entry.1 in c.exchanges)
  {
    PlanExchangesEntries(c.pairs, c.exchanges, entry);
    PlanPairsEntries(c.pairs, "", entry);
  }

  /** The reads of a cycle cover exactly the configured windows. */
  lemma TargetsCover(c: Config, k: Key)
    ensures Todo(Targets(c), k) <==> Configured(c, k)
  {
    var plan := Plan(c.pairs, c.exchanges);
    if Configured(c, k) {
      var entry := (k.symbol, if c.exchanges == [] || "" in c.exchanges then "" else k.exchange);
      PlanEntries(c, entry);
      var i :| 0 <= i < |plan| && plan[i] == entry;
      assert Targets(c)[i] == TargetOf(entry);
      assert TargetOf(entry) in Targets(c) && Covers(TargetOf(entry), k);
    }
    if Todo(Targets(c), k) {
      var t :| t in Targets(c) && Covers(t, k);
      var i :| 0 <= i < |Targets(c)| && Targets(c)[i] == t;
      assert plan[i] in plan;
      PlanEntries(c, plan[i]);
    }
  }

  // ---------- Invariant ----------

  /** The clock of the cycle's first read. */
  function Since(ph: Phase): Option<Time> {
    match ph
    case Collecting(p) => p.since
    case Scanning(p, pair, clock, must) => p.since
    case Fetching(p, target, clock, keys, got) => p.since
    case Stored(batch, since, made) => Some(since)
    case _ => None
  }

  predicate Reading(ph: Phase) {
    ph.Collecting? || ph.Scanning? || ph.Fetching? || ph.Stored?
  }

  /** The reads of the cycle that have succeeded. */
  function Made(ph: Phase): set<Target>
    requires Reading(ph)
  {
    if ph.Stored? then ph.made else ph.p.made
  }

  /** What the reads that have succeeded returned. */
  function Batch(ph: Phase): set<Update>
    requires Reading(ph)
  {
    if ph.Stored? then ph.batch else ph.p.batch
  }

  predicate MadeOf(ph: Phase, k: Key)
    requires Reading(ph)
  {
    exists t :: t in Made(ph) && Covers(t, k)
  }

  /** Clock readings are in the past and in order. */
  predicate ClocksInv(s: State) {
    && s.lastFull <= s.now
    && (Since(s.phase).Some? ==> s.lastFull <= Since(s.phase).value <= s.now)
    && match s.phase
       case Collecting(p) => p.since.None? ==> p.made == {}
       case Scanning(p, pair, clock, must) => p.since.Some? && p.since.value <= clock <= s.now
       case Fetching(p, target, clock, keys, got) => p.since.Some? && p.since.value <= clock <= s.now
       case Deleting(batch, clock, must) => s.lastFull <= clock <= s.now
       case _ => true
  }

  /** The update arrived before the cycle's first read, and a read now still sees it. */
  predicate Due(c: Config, l: Limits, s: State, u: Update) {
    && (Since(s.phase).None? || u.timestamp + l.lag < Since(s.phase).value)
    && Unix(s.now - c.ttl) <= Unix(u.timestamp)
  }

  /** The read that is going on has the update or is still to fetch it, and so do the reads before it. */
  predicate ReadInv(ph: Phase, u: Update)
    requires Reading(ph)
  {
    && (MadeOf(ph, KeyOf(u)) ==> u in Batch(ph))
    && (ph.Scanning? && ph.pair == u.symbol ==> KeyOf(u) in ph.must)
    && (ph.Fetching? && Covers(ph.target, KeyOf(u)) ==> KeyOf(u) in ph.keys || u in ph.got)
  }

  /** What is known of the update while it is in its window. */
  predicate EntryInv(c: Config, l: Limits, s: State, u: Update) {
    && 0 <= l.lag
    && u.timestamp <= s.now
    && (l.lag + SECOND <= c.retention ==> !Stale(u, s.lastFull - c.retention))
    && (Reading(s.phase) && Due(c, l, s, u) ==> ReadInv(s.phase, u))
    && (s.phase.Deleting? && Stale(u, s.phase.clock - c.retention) ==>
          u in s.phase.batch && KeyOf(u) in s.phase.must)
  }

  ghost predicate SavedInv(s: State, u: Update) {
    && (u in s.removed ==> u in AllSaved(s.saved))
    && (s.phase.Stored? || s.phase.Deleting? ==> s.phase.batch <= AllSaved(s.saved))
  }

  ghost predicate Inv(c: Config, l: Limits, s: State, u: Update) {
    && WellKeyed(s.windows)
    && ClocksInv(s)
    && SavedInv(s, u)
    && (u in Members(s.windows, KeyOf(u)) ==> EntryInv(c, l, s, u))
  }

  // ---------- Steps ----------

  lemma ExpiryKeepsKeys(w: Windows, k: Key)
    requires WellKeyed(w)
    ensures WellKeyed(w - {k})
  {
    forall k', u | u in Members(w - {k}, k') ensures KeyOf(u) == k' {
      assert u in Members(w, k');
    }
  }

  lemma KeysStep(c: Config, s: State, a: Action)
    requires Enabled(c, s, a) && WellKeyed(s.windows)
    ensures WellKeyed(Apply(c, s, a).windows)
  {
    match a
    case Arrive(u) => AddKeepsKeys(s.windows, u);
    case Expire(k) => ExpiryKeepsKeys(s.windows, k);
    case Purge(k) => PurgeKeepsKeys(s.windows, k, s.phase.clock - c.retention);
    case _ =>
  }

  lemma ClocksStep(c: Config, s: State, a: Action)
    requires Enabled(c, s, a) && ClocksInv(s)
    ensures ClocksInv(Apply(c, s, a))
  {}

  lemma SavedStep(c: Config, l: Limits, s: State, a: Action, u: Update)
    requires Enabled(c, s, a) && Inv(c, l, s, u)
    ensures SavedInv(Apply(c, s, a), u)
  {
    match a
    case Save(ok) =>
      assert (s.saved + [s.phase.p.batch])[..|s.saved|] == s.saved;
    case _ =>
  }

  /** The cycle's reads have returned the update if the deletion will find it stale. */
  lemma FatalIsRead(c: Config, l: Limits, flaky: set<Target>, s: State, u: Update)
    requires Tight(c, l) && Sure(flaky, Targets(c), KeyOf(u)) && 0 <= l.span && 0 <= l.gap
    requires s.phase.Stored? && Timely(c, l, flaky, u, s, DeleteClock) && ClocksInv(s) && EntryInv(c, l, s, u)
    requires Fatal(c, u, s)
    ensures u in s.phase.batch
  {
    var t :| t in Targets(c) && t !in flaky && Covers(t, KeyOf(u));
    assert MadeOf(s.phase, KeyOf(u));
    UnixOrder(u.timestamp, s.now - c.retention);
    assert u.timestamp + l.lag < s.phase.since;
    var before := s.lastFull - c.retention;
    UnixOrder(s.now - c.ttl, before + SECOND);
    assert Unix(before + SECOND) == Unix(before) + 1;
  }

  lemma DeletionBegins(c: Config, l: Limits, flaky: set<Target>, s: State, u: Update)
    requires Tight(c, l) && Sure(flaky, Targets(c), KeyOf(u)) && 0 <= l.span && 0 <= l.gap
    requires Enabled(c, s, DeleteClock) && Timely(c, l, flaky, u, s, DeleteClock) && ClocksInv(s)
    requires u in Members(s.windows, KeyOf(u)) && EntryInv(c, l, s, u)
    ensures EntryInv(c, l, Apply(c, s, DeleteClock), u)
  {
    if Fatal(c, u, s) {
      FatalIsRead(c, l, flaky, s, u);
    }
  }

  lemma ReadStep(c: Config, l: Limits, s: State, a: Action, u: Update)
    requires Enabled(c, s, a) && ClocksInv(s) && Reading(s.phase) && Reading(Apply(c, s, a).phase)
    requires u in Members(s.windows, KeyOf(u)) && u in Members(Apply(c, s, a).windows, KeyOf(u))
    requires Due(c, l, s, u) ==> ReadInv(s.phase, u)
    requires u.timestamp <= s.now && 0 <= l.lag
    ensures Due(c, l, Apply(c, s, a), u) ==> ReadInv(Apply(c, s, a).phase, u)
  {
    var k := KeyOf(u);
    match a
    case Tick(d) => UnixOrder(s.now - c.ttl, s.now + d - c.ttl);
    case Fetch =>
      UnixOrder(s.phase.clock - c.ttl, s.now - c.ttl);
      UnixOrder(u.timestamp, s.phase.clock);
      assert k in s.phase.keys ==> k == s.phase.keys[0] || k in s.phase.keys[1..];
    case _ =>
  }

  /** The update stays accounted for while it stays in its window. */
  lemma EntryStep(c: Config, l: Limits, flaky: set<Target>, s: State, a: Action, u: Update)
    requires Tight(c, l) && Sure(flaky, Targets(c), KeyOf(u)) && 0 <= l.span && 0 <= l.gap
    requires Enabled(c, s, a) && Timely(c, l, flaky, u, s, a) && ClocksInv(s) && EntryInv(c, l, s, u)
    requires u in Members(s.windows, KeyOf(u)) && u in Members(Apply(c, s, a).windows, KeyOf(u))
    ensures EntryInv(c, l, Apply(c, s, a), u)
  {
    if a.DeleteClock? {
      DeletionBegins(c, l, flaky, s, u);
    } else if Reading(s.phase) && Reading(Apply(c, s, a).phase) {
      ReadStep(c, l, s, a, u);
    }
  }

  /** An update that arrives is accounted for. */
  lemma EntryArrives(c: Config, l: Limits, flaky: set<Target>, s: State, u: Update)
    requires Tight(c, l) && 0 <= l.span && 0 <= l.gap
    requires Timely(c, l, flaky, u, s, Arrive(u)) && ClocksInv(s)
    ensures EntryInv(c, l, Apply(c, s, Arrive(u)), u)
  {
    UnixOrder(u.timestamp, s.lastFull - c.retention);
    if s.phase.Deleting? {
      UnixOrder(u.timestamp, s.phase.clock - c.retention);
    }
  }

  lemma InvStep(c: Config, l: Limits, flaky: set<Target>, s: State, a: Action, u: Update)
    requires Tight(c, l) && Sure(flaky, Targets(c), KeyOf(u)) && 0 <= l.span && 0 <= l.gap
    requires Enabled(c, s, a) && Timely(c, l, flaky, u, s, a) && Inv(c, l, s, u)
    ensures Inv(c, l, Apply(c, s, a), u)
  {
    var t := Apply(c, s, a);
    KeysStep(c, s, a);
    ClocksStep(c, s, a);
    SavedStep(c, l, s, a, u);
    if u in Members(t.windows, KeyOf(u)) {
      if u in Members(s.windows, KeyOf(u)) {
        EntryStep(c, l, flaky, s, a, u);
      } else {
        assert a == Arrive(u);
        EntryArrives(c, l, flaky, s, u);
      }
    }
  }

  lemma {:induction false} InvRun(c: Config, l: Limits, flaky: set<Target>, s: State, run: seq<Action>, u: Update)
    requires Tight(c, l) && Sure(flaky, Targets(c), KeyOf(u)) && 0 <= l.span && 0 <= l.gap
    requires IsRun(c, s, run) && TimelyRun(c, l, flaky, u, s, run) && Inv(c, l, s, u)
    ensures Inv(c, l, Exec(c, s, run), u)
    decreases |run|
  {
    if run != [] {
      InvStep(c, l, flaky, s, run[0], u);
      InvRun(c, l, flaky, Apply(c, s, run[0]), run[1..], u);
    }
  }

  /**
   With tight limits, an update that DeleteOldPrices removes stands behind a saved batch, if some read of its window
   does not fail in the cycle that finds it stale: whatever else arrives, whichever other reads, saves and deletions
   fail, and however arrivals and expiries interleave with the commands of the cycles.
   */
  lemma NothingDeletedUnread(c: Config, l: Limits, flaky: set<Target>, start: Time, run: seq<Action>, u: Update)
    requires Tight(c, l) && Sure(flaky, Targets(c), KeyOf(u)) && 0 <= l.span && 0 <= l.gap
    requires IsRun(c, Init(start), run) && TimelyRun(c, l, flaky, u, Init(start), run)
    requires u in Exec(c, Init(start), run).removed
    ensures u in AllSaved(Exec(c, Init(start), run).saved)
  {
    InvRun(c, l, flaky, Init(start), run, u);
  }
}

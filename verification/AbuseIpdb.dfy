/** The log book of the AbuseIPDB reporter (src/cowrie/output/abuseipdb.py): reports
    against the history of logins, across clean-ups and sleeps that may overlap. */
module AbuseIpdb {
  import opened Common

  type Ip = string

  const REREPORT_MINIMUM := 900.0
  const CLEAN_DUMP_SCHED := 600.0

  // The value kept for an address: the times of its logins (a deque), or the
  // time of its last report, stored as the pair (None, time).
  datatype Entry = Times(ts: seq<real>) | Reported(at: real)

  datatype Config = Config(attempts: int, window: real, rereport: real)

  type Book = map<Ip, Entry>

  datatype Report = Report(ip: Ip, first: real, last: real)

  // ----- the operations on one entry

  // The logins that a report takes.
  function Need(c: Config): nat { Max(c.attempts, 1) }

  // A deque of bounded length drops its oldest element when it is full.
  function AppendBounded(ts: seq<real>, t: real, bound: int): seq<real> {
    if |ts| < bound then ts + [t] else (ts + [t])[1..]
  }

  // `clean_expired_timestamps`: a time stamp of zero ends the scan.
  function CleanExpired(ts: seq<real>, now: real, c: Config): seq<real> {
    if ts == [] || ts[0] == 0.0 || ts[0] >= now - c.window then ts
    else CleanExpired(ts[1..], now, c)
  }

  function Cleaned(e: Entry, now: real, c: Config): Entry {
    match e
    case Times(ts) => Times(CleanExpired(ts, now, c))
    case Reported(_) => e
  }

  // `can_rereport`: a deque without a second time stamp raises IndexError, which counts as yes.
  predicate CanRereport(e: Entry, now: real, c: Config) {
    match e
    case Times(ts) =>
      |ts| < 2 || now > ts[1] + c.rereport || (ts[0] != 0.0 && c.attempts <= 1)
    case Reported(at) => now > at + c.rereport
  }

  // The entry after a login at `now`, before a report is considered.
  function Noted(e: Option<Entry>, now: real, c: Config): Entry {
    match e
    case None => Times([now])
    case Some(Reported(at)) => if CanRereport(e.value, now, c) then Times([now]) else e.value
    case Some(Times(ts)) =>
      if ts == [] then Times([now])
      else if ts[0] != 0.0 then Times(CleanExpired(AppendBounded(ts, now, c.attempts), now, c))
      else if CanRereport(e.value, now, c) then Times([now])
      else e.value
  }

  // Only a login that was appended to earlier ones can complete a report.
  predicate Completes(e: Option<Entry>, now: real, c: Config) {
    && e.Some? && e.value.Times? && e.value.ts != [] && e.value.ts[0] != 0.0
    && |Noted(e, now, c).ts| >= c.attempts
  }

  function Entered(book: Book, ip: Ip): Option<Entry> {
    if ip in book then Some(book[ip]) else None
  }

  // `intolerant_observer`: every login is reported that may be.
  predicate ReportsAtOnce(e: Option<Entry>, now: real, c: Config) {
    e.None? || CanRereport(e.value, now, c)
  }

  // What becomes of the entry of an address with a login at `now`, and the report.
  function EntryAfter(e: Option<Entry>, now: real, c: Config): Entry {
    if c.attempts <= 1 then
      if ReportsAtOnce(e, now, c) then Reported(now) else e.value
    else
      var n := Noted(e, now, c);
      if Completes(e, now, c) then Reported(n.ts[|n.ts| - 1]) else n
  }

  function ReportAfter(e: Option<Entry>, ip: Ip, now: real, c: Config): Option<Report> {
    if c.attempts <= 1 then
      if ReportsAtOnce(e, now, c) then Some(Report(ip, now, now)) else None
    else
      var n := Noted(e, now, c);
      if Completes(e, now, c) then Some(Report(ip, n.ts[0], n.ts[|n.ts| - 1])) else None
  }

  function Observed(book: Book, ip: Ip, now: real, c: Config): Book {
    book[ip := EntryAfter(Entered(book, ip), now, c)]
  }

  function ReportOf(book: Book, ip: Ip, now: real, c: Config): Option<Report> {
    ReportAfter(Entered(book, ip), ip, now, c)
  }

  // `cleanup_and_dump_state`: out go the entries that could be reported anew, and
  // those left without a time stamp.
  function CleanBook(book: Book, now: real, c: Config): Book {
    map ip | ip in book && !CanRereport(book[ip], now, c) && Cleaned(book[ip], now, c) != Times([])
      :: Cleaned(book[ip], now, c)
  }

  // ----- the state with its sleeps

  datatype Login = Login(ip: Ip, at: real)

  // Beside the book: the sleep flag with its time, the calls that are pending, by due time, and
  // the history of logins looked at and of reports. The call that `recall` names is the last
  // of `cleanups`, unless it has been made or cancelled.
  datatype State = State(
    book: Book, sleeping: bool, sleepUntil: real, wakeups: seq<real>, cleanups: seq<real>, recall: bool,
    log: seq<Login>, reports: seq<Report>, clock: real)

  // A pending call of the clean-up or of the wake-up is named by its place.
  datatype Event =
    | Attempt(ip: Ip, now: real)
    | CleanUp(i: nat, now: real)
    | RetryAfter(now: real, retry: real)
    | Wake(i: nat, now: real)
    | Stop(now: real)

  function Started(now: real): State { Scheduled(State(map[], false, 0.0, [], [], false, [], [], now), now) }

  // Time does not go back, and a call is made when it is due or later.
  predicate Enabled(s: State, e: Event) {
    && s.clock <= e.now
    && (e.RetryAfter? ==> e.retry >= 0.0)
    && (e.Wake? ==> e.i < |s.wakeups| && s.wakeups[e.i] <= e.now)
    && (e.CleanUp? ==> e.i < |s.cleanups| && s.cleanups[e.i] <= e.now)
  }

  function Attempted(s: State, ip: Ip, now: real, c: Config): State {
    if s.sleeping then s.(clock := now)
    else
      var r := ReportOf(s.book, ip, now, c);
      s.(book := Observed(s.book, ip, now, c), log := s.log + [Login(ip, now)], clock := now,
         reports := s.reports + if r.Some? then [r.value] else [])
  }

  // Another clean-up, by a new call that `recall` names from now on.
  function Scheduled(s: State, now: real): State {
    s.(cleanups := s.cleanups + [now + CLEAN_DUMP_SCHED], recall := true)
  }

  // The pending clean-up number i is taken off the reactor.
  function Taken(s: State, i: nat): State
    requires i < |s.cleanups|
  {
    s.(cleanups := s.cleanups[..i] + s.cleanups[i + 1..], recall := s.recall && i < |s.cleanups| - 1)
  }

  // `cancel` raises when the call was cancelled or made before.
  predicate Raises(s: State, last: bool) { last && (!s.recall || s.cleanups == []) }

  // `cleanup_and_dump_state`; `last` for mode 1, which cancels the call that `recall` names.
  function CleanedUp(s: State, last: bool, now: real, c: Config): State {
    if Raises(s, last) then s.(clock := now)
    else
      var t := s.(book := CleanBook(s.book, if s.sleeping then s.sleepUntil else now, c), clock := now);
      if last then Taken(t, |t.cleanups| - 1)
      else if s.sleeping then t
      else Scheduled(t, now)
  }

  // What is put to sleep, before its clean-up.
  function Asleep(s: State, until: real): State {
    s.(sleeping := true, sleepUntil := until, wakeups := s.wakeups + [until])
  }

  function Next(s: State, e: Event, c: Config): State
    requires Enabled(s, e)
  {
    match e
    case Attempt(ip, now) => Attempted(s, ip, now, c)
    case CleanUp(i, now) => CleanedUp(Taken(s, i), false, now, c)
    case RetryAfter(now, retry) => CleanedUp(Asleep(s, now + retry), true, now, c)
    case Wake(i, now) =>
      Scheduled(s.(sleeping := false, sleepUntil := 0.0, wakeups := s.wakeups[..i] + s.wakeups[i + 1..],
                   clock := now), now)
    case Stop(now) => CleanedUp(s, true, now, c)
  }

  function Least(ts: seq<real>): real
    requires ts != []
  {
    if |ts| == 1 then ts[0]
    else if ts[0] <= Least(ts[1..]) then ts[0] else Least(ts[1..])
  }

  // The earliest time of the next login that is looked at: asleep, that of the first wake-up.
  function Horizon(s: State): real {
    if s.sleeping && s.wakeups != [] && Least(s.wakeups) > s.clock then Least(s.wakeups) else s.clock
  }

  lemma {:induction false} LeastIsLeast(ts: seq<real>, i: nat)
    requires i < |ts|
    ensures Least(ts) <= ts[i]
  {
    if i > 0 {
      LeastIsLeast(ts[1..], i - 1);
    }
  }

  lemma {:induction false} LeastOfAppend(ts: seq<real>, t: real)
    requires ts != []
    ensures Least(ts + [t]) == if Least(ts) <= t then Least(ts) else t
  {
    assert (ts + [t])[1..] == ts[1..] + [t];
    if |ts| > 1 {
      LeastOfAppend(ts[1..], t);
    }
  }

  // ----- one entry against the history of its address

  ghost predicate Rising(ts: seq<real>, clock: real) {
    && (forall i, j :: 0 <= i < j < |ts| ==> ts[i] <= ts[j])
    && (forall i :: 0 <= i < |ts| ==> 0.0 < ts[i] <= clock)
  }

  ghost predicate AllFrom(ts: seq<real>, from: real) {
    forall i :: 0 <= i < |ts| ==> ts[i] >= from
  }

  // The last report of the address lies far enough back at the time `horizon`.
  ghost predicate Released(last: Option<real>, horizon: real, c: Config) {
    last.Some? ==> last.value + c.rereport < horizon
  }

  ghost predicate Ends(logins: seq<real>, ts: seq<real>) {
    exists gone :: logins == gone + ts
  }

  lemma EndsBy(gone: seq<real>, ts: seq<real>)
    ensures Ends(gone + ts, ts)
  {
  }

  // `logins` are all logins of the address seen while awake, `last` its last report.
  ghost predicate EntryAgrees(e: Option<Entry>, logins: seq<real>, last: Option<real>, clock: real, c: Config) {
    && Rising(logins, clock)
    && (e.Some? && e.value.Times? ==> |e.value.ts| < Need(c) && Ends(logins, e.value.ts))
    && (e.Some? && e.value.Reported? ==> last == Some(e.value.at))
  }

  // An address that may be reported anew, by logins from `horizon` on, has been quiet for long enough.
  ghost predicate Quiet(e: Option<Entry>, last: Option<real>, horizon: real, c: Config) {
    e.None? || e.value.Times? ==> Released(last, horizon, c)
  }

  lemma {:induction false} CleanIsSuffix(ts: seq<real>, clock: real, now: real, c: Config) returns (gone: seq<real>)
    requires Rising(ts, clock)
    ensures ts == gone + CleanExpired(ts, now, c)
    ensures AllFrom(CleanExpired(ts, now, c), now - c.window)
  {
    if ts == [] || ts[0] >= now - c.window {
      gone := [];
    } else {
      gone := CleanIsSuffix(ts[1..], clock, now, c);
      gone := [ts[0]] + gone;
    }
  }

  lemma RisingAppend(logins: seq<real>, clock: real, now: real)
    requires Rising(logins, clock) && clock <= now && 0.0 < now
    ensures Rising(logins + [now], now)
  {
  }

  lemma RisingSuffix(gone: seq<real>, ts: seq<real>, clock: real)
    requires Rising(gone + ts, clock)
    ensures Rising(ts, clock)
  {
    assert forall i :: 0 <= i < |ts| ==> (gone + ts)[|gone| + i] == ts[i];
  }

  // A report rests on the last logins of the address, as many as are needed, and in the
  // window that ends now when it takes more than one.
  ghost predicate Rests(r: Report, logins: seq<real>, now: real, c: Config) {
    exists gone, ts :: logins == gone + ts && RestsOn(r, ts, now, c)
  }

  ghost predicate RestsOn(r: Report, ts: seq<real>, now: real, c: Config) {
    && |ts| == Need(c) && ts[|ts| - 1] == now && r.first == ts[0] && r.last == now
    && (c.attempts >= 2 ==> AllFrom(ts, now - c.window))
  }

  // A login appended to earlier ones: `gone` is what the window drops.
  lemma AppendedAgrees(ts: seq<real>, before: seq<real>, clock: real, c: Config, now: real)
    returns (gone: seq<real>)
    requires 0 < |ts| < c.attempts && Rising(before + ts, clock) && clock <= now && 0.0 < now
    ensures
      var kept := CleanExpired(AppendBounded(ts, now, c.attempts), now, c);
      && |kept| <= c.attempts && AllFrom(kept, now - c.window)
      && before + ts + [now] == gone + kept
      && (|kept| >= c.attempts ==> kept == ts + [now])
    ensures ts[0] != 0.0
  {
    RisingSuffix(before, ts, clock);
    RisingAppend(ts, clock, now);
    var more := ts + [now];
    assert more[0] != 0.0 && AppendBounded(ts, now, c.attempts) == more;
    hide *;
    var older := CleanIsSuffix(more, now, now, c);
    gone := before + older;
    var kept := CleanExpired(more, now, c);
    ConcatAssociates(before, ts, [now]);
    ConcatAssociates(before, older, kept);
    if |kept| >= c.attempts {
      assert older == [];
    }
  }

  // What the entry of a login and its report have to do with the history.
  ghost predicate StepAgrees(
    e: Option<Entry>, logins: seq<real>, last: Option<real>, c: Config, ip: Ip, now: real)
  {
    var r, f := ReportAfter(e, ip, now, c), Some(EntryAfter(e, now, c));
    && EntryAgrees(f, logins + [now], if r.Some? then Some(now) else last, now, c)
    && (r.Some? ==> r.value.ip == ip && Rests(r.value, logins + [now], now, c))
  }

  ghost predicate StepQuiet(e: Option<Entry>, last: Option<real>, c: Config, ip: Ip, now: real) {
    var r, f := ReportAfter(e, ip, now, c), Some(EntryAfter(e, now, c));
    if r.Some? then Released(last, now, c) && Quiet(f, Some(now), now, c) else Quiet(f, last, now, c)
  }

  lemma RestsOnOne(ip: Ip, logins: seq<real>, now: real, c: Config)
    requires c.attempts <= 1
    ensures Rests(Report(ip, now, now), logins + [now], now, c)
  {
    assert RestsOn(Report(ip, now, now), [now], now, c);
  }

  lemma IntolerantAgrees(
    e: Option<Entry>, logins: seq<real>, last: Option<real>, clock: real, c: Config, ip: Ip, now: real)
    requires c.attempts <= 1 && EntryAgrees(e, logins, last, clock, c) && clock <= now && 0.0 < now
    ensures StepAgrees(e, logins, last, c, ip, now)
  {
    RisingAppend(logins, clock, now);
    RestsOnOne(ip, logins, now, c);
    hide Rising, Rests;
  }

  // What is kept of earlier logins and the one at `now`.
  lemma KeptAgrees(ts: seq<real>, logins: seq<real>, clock: real, c: Config, ip: Ip, now: real)
    requires 0 < |ts| < c.attempts && Rising(logins, clock) && Ends(logins, ts) && clock <= now && 0.0 < now
    ensures
      var kept := CleanExpired(AppendBounded(ts, now, c.attempts), now, c);
      && |kept| <= c.attempts && Ends(logins + [now], kept)
      && (|kept| >= c.attempts ==>
            kept[|kept| - 1] == now && Rests(Report(ip, kept[0], now), logins + [now], now, c))
    ensures ts[0] != 0.0
  {
    var before :| logins == before + ts;
    var gone := AppendedAgrees(ts, before, clock, c, now);
    var kept := CleanExpired(AppendBounded(ts, now, c.attempts), now, c);
    hide CleanExpired, AppendBounded, AllFrom, Rising, Ends;
    EndsBy(gone, kept);
    if |kept| >= c.attempts {
      assert RestsOn(Report(ip, kept[0], now), kept, now, c);
    }
  }

  lemma TolerantAgrees(
    e: Option<Entry>, logins: seq<real>, last: Option<real>, clock: real, c: Config, ip: Ip, now: real)
    requires c.attempts >= 2 && EntryAgrees(e, logins, last, clock, c) && clock <= now && 0.0 < now
    ensures StepAgrees(e, logins, last, c, ip, now)
  {
    RisingAppend(logins, clock, now);
    EndsBy(logins, [now]);
    if e.Some? && e.value.Times? && e.value.ts != [] {
      KeptAgrees(e.value.ts, logins, clock, c, ip, now);
    }
    hide Rising, CleanExpired, AppendBounded, Ends, Rests;
  }

  lemma NotedAgrees(
    e: Option<Entry>, logins: seq<real>, last: Option<real>, clock: real, c: Config, ip: Ip, now: real)
    requires EntryAgrees(e, logins, last, clock, c) && clock <= now && 0.0 < now
    ensures StepAgrees(e, logins, last, c, ip, now)
  {
    hide StepAgrees, EntryAgrees;
    if c.attempts <= 1 {
      IntolerantAgrees(e, logins, last, clock, c, ip, now);
    } else {
      TolerantAgrees(e, logins, last, clock, c, ip, now);
    }
  }

  // The spacing of one address over a login: a report comes after the quiet time of the last.
  lemma NotedQuiet(
    e: Option<Entry>, logins: seq<real>, last: Option<real>, clock: real, horizon: real, c: Config, ip: Ip, now: real)
    requires EntryAgrees(e, logins, last, clock, c) && Quiet(e, last, horizon, c)
    requires clock <= now && horizon <= now && 0.0 < now
    ensures StepQuiet(e, last, c, ip, now)
  {
    hide CleanExpired, AppendBounded, Ends, Rising;
  }

  function CleanedEntry(e: Option<Entry>, now: real, c: Config): Option<Entry> {
    if e.None? || CanRereport(e.value, now, c) || Cleaned(e.value, now, c) == Times([]) then None
    else Some(Cleaned(e.value, now, c))
  }

  lemma CleanedAgrees(e: Option<Entry>, logins: seq<real>, last: Option<real>, clock: real, now: real, c: Config)
    requires EntryAgrees(e, logins, last, clock, c)
    ensures EntryAgrees(CleanedEntry(e, now, c), logins, last, clock, c)
  {
    if e.Some? && e.value.Times? && CleanedEntry(e, now, c).Some? {
      ExpiredEnds(e.value.ts, logins, clock, now, c);
      hide Rising, CleanExpired, Ends;
    }
  }

  lemma ExpiredEnds(ts: seq<real>, logins: seq<real>, clock: real, now: real, c: Config)
    requires Rising(logins, clock) && Ends(logins, ts)
    ensures Ends(logins, CleanExpired(ts, now, c)) && |CleanExpired(ts, now, c)| <= |ts|
  {
    var gone :| logins == gone + ts;
    RisingSuffix(gone, ts, clock);
    hide *;
    var older := CleanIsSuffix(ts, clock, now, c);
    ConcatAssociates(gone, older, CleanExpired(ts, now, c));
    EndsBy(gone + older, CleanExpired(ts, now, c));
  }

  // The clean-up at `now` takes a report off the book whose quiet time still runs at the next login.
  predicate FreedEarly(e: Option<Entry>, horizon: real, now: real, c: Config) {
    e.Some? && e.value.Reported? && horizon <= e.value.at + c.rereport < now
  }

  /** A clean-up at `now` leaves an address quiet, for logins from `horizon` on, exactly when
      it was so before and is not freed early. */
  lemma CleanedQuietIff(
    e: Option<Entry>, logins: seq<real>, last: Option<real>, clock: real, horizon: real, now: real, c: Config)
    requires EntryAgrees(e, logins, last, clock, c)
    ensures Quiet(CleanedEntry(e, now, c), last, horizon, c)
       <==> Quiet(e, last, horizon, c) && !FreedEarly(e, horizon, now, c)
  {
    hide Rising, CleanExpired, Ends;
  }

  /** A clean-up is safe for every address exactly when its time is not after the next login. */
  lemma CleanUpSafeIff(horizon: real, now: real, c: Config)
    ensures (forall e, logins, last, clock ::
               EntryAgrees(e, logins, last, clock, c) && Quiet(e, last, horizon, c)
               ==> Quiet(CleanedEntry(e, now, c), last, horizon, c))
       <==> now <= horizon
  {
    if now <= horizon {
      forall e, logins, last, clock | EntryAgrees(e, logins, last, clock, c) && Quiet(e, last, horizon, c)
        ensures Quiet(CleanedEntry(e, now, c), last, horizon, c)
      {
        CleanedQuietIff(e, logins, last, clock, horizon, now, c);
      }
    } else {
      var at := horizon - c.rereport;
      var e := Some(Reported(at));
      assert EntryAgrees(e, [], Some(at), horizon, c) && Quiet(e, Some(at), horizon, c);
      CleanedQuietIff(e, [], Some(at), horizon, horizon, now, c);
    }
  }

  // ----- the whole log book

  function LoginsOf(log: seq<Login>, ip: Ip): seq<real> {
    if log == [] then []
    else LoginsOf(log[..|log| - 1], ip) + if log[|log| - 1].ip == ip then [log[|log| - 1].at] else []
  }

  function LastReport(reports: seq<Report>, ip: Ip): Option<real> {
    if reports == [] then None
    else if reports[|reports| - 1].ip == ip then Some(reports[|reports| - 1].last)
    else LastReport(reports[..|reports| - 1], ip)
  }

  lemma LoginsAfter(log: seq<Login>, l: Login, ip: Ip)
    ensures LoginsOf(log + [l], ip) == if l.ip == ip then LoginsOf(log, ip) + [l.at] else LoginsOf(log, ip)
  {
    assert (log + [l])[..|log + [l]| - 1] == log;
    assert LoginsOf(log, ip) + [] == LoginsOf(log, ip);
  }

  lemma LastReportAfter(reports: seq<Report>, r: Report, ip: Ip)
    ensures LastReport(reports + [r], ip) == if r.ip == ip then Some(r.last) else LastReport(reports, ip)
  {
    assert (reports + [r])[..|reports + [r]| - 1] == reports;
  }

  ghost predicate IpAgrees(s: State, c: Config, ip: Ip) {
    EntryAgrees(Entered(s.book, ip), LoginsOf(s.log, ip), LastReport(s.reports, ip), s.clock, c)
  }

  ghost predicate IpQuiet(s: State, horizon: real, c: Config, ip: Ip) {
    Quiet(Entered(s.book, ip), LastReport(s.reports, ip), horizon, c)
  }

  ghost predicate AllQuiet(s: State, horizon: real, c: Config) {
    forall ip :: IpQuiet(s, horizon, c, ip)
  }

  // Every report came more than `rereport` after the one before of its address.
  ghost predicate Spaced(reports: seq<Report>, c: Config) {
    reports == [] ||
    (var front, r := reports[..|reports| - 1], reports[|reports| - 1];
     Spaced(front, c) && Released(LastReport(front, r.ip), r.last, c))
  }

  // The report names consecutive logins of its address, as many as are needed.
  ghost predicate Founded(r: Report, logins: seq<real>, c: Config) {
    exists before, ts, after :: logins == before + ts + after && RestsOn(r, ts, r.last, c)
  }

  lemma FoundedLater(r: Report, logins: seq<real>, more: seq<real>, c: Config)
    requires Founded(r, logins, c)
    ensures Founded(r, logins + more, c)
  {
    var before, ts, after :| logins == before + ts + after && RestsOn(r, ts, r.last, c);
    ConcatAssociates(before + ts, after, more);
    assert logins + more == before + ts + (after + more);
  }

  lemma RestsIsFounded(r: Report, logins: seq<real>, now: real, c: Config)
    requires Rests(r, logins, now, c)
    ensures Founded(r, logins, c) && r.last == now
  {
    var gone, ts :| logins == gone + ts && RestsOn(r, ts, now, c);
    assert logins == gone + ts + [];
  }

  ghost predicate AllFounded(reports: seq<Report>, log: seq<Login>, c: Config) {
    forall r :: r in reports ==> Founded(r, LoginsOf(log, r.ip), c)
  }

  lemma AllFoundedLater(reports: seq<Report>, log: seq<Login>, l: Login, c: Config)
    requires AllFounded(reports, log, c)
    ensures AllFounded(reports, log + [l], c)
  {
    forall r | r in reports
      ensures Founded(r, LoginsOf(log + [l], r.ip), c)
    {
      LoginsAfter(log, l, r.ip);
      if l.ip == r.ip {
        FoundedLater(r, LoginsOf(log, r.ip), [l.at], c);
      }
    }
  }

  /** Any two reports of one address lie more than `rereport` apart. */
  lemma {:induction false} SpacedPairs(reports: seq<Report>, c: Config, i: nat, j: nat)
    requires Spaced(reports, c) && c.rereport > 0.0
    requires i < j < |reports| && reports[i].ip == reports[j].ip
    ensures reports[i].last + c.rereport < reports[j].last
    decreases |reports|
  {
    var front := reports[..|reports| - 1];
    if j < |reports| - 1 {
      SpacedPairs(front, c, i, j);
    } else {
      LastReportLatest(front, c, i);
    }
  }

  lemma {:induction false} LastReportLatest(reports: seq<Report>, c: Config, i: nat)
    requires Spaced(reports, c) && c.rereport > 0.0 && i < |reports|
    ensures LastReport(reports, reports[i].ip).Some? && reports[i].last <= LastReport(reports, reports[i].ip).value
    decreases |reports|
  {
    if i < |reports| - 1 {
      LastReportLatest(reports[..|reports| - 1], c, i);
    }
  }

  // ----- one step

  // A sleep has a wake-up to come, and has cancelled the call that `recall` names.
  predicate Calls(s: State) {
    (s.sleeping ==> s.wakeups != [] && !s.recall) && (s.recall ==> s.cleanups != [])
  }

  // What holds in every state, however sleeps overlap.
  ghost predicate Sound(s: State, c: Config) {
    && s.clock > 0.0 && Calls(s)
    && (forall ip :: IpAgrees(s, c, ip))
    && AllFounded(s.reports, s.log, c)
  }

  lemma LaterAgrees(e: Option<Entry>, logins: seq<real>, last: Option<real>, clock: real, clock': real, c: Config)
    requires EntryAgrees(e, logins, last, clock, c) && clock <= clock'
    ensures EntryAgrees(e, logins, last, clock', c)
  {
  }

  lemma AttemptIpAgrees(s: State, ip: Ip, now: real, c: Config, other: Ip)
    requires IpAgrees(s, c, other) && IpAgrees(s, c, ip) && !s.sleeping && s.clock <= now && 0.0 < now
    ensures IpAgrees(Attempted(s, ip, now, c), c, other)
  {
    var r := ReportOf(s.book, ip, now, c);
    hide EntryAgrees, LoginsOf, LastReport, EntryAfter, ReportAfter, Rests;
    NotedAgrees(Entered(s.book, ip), LoginsOf(s.log, ip), LastReport(s.reports, ip), s.clock, c, ip, now);
    LoginsAfter(s.log, Login(ip, now), other);
    if r.Some? {
      LastReportAfter(s.reports, r.value, other);
      RestsIsFounded(r.value, LoginsOf(s.log, ip) + [now], now, c);
    } else {
      assert s.reports + [] == s.reports;
    }
    if other != ip {
      LaterAgrees(Entered(s.book, other), LoginsOf(s.log, other), LastReport(s.reports, other), s.clock, now, c);
    }
  }

  lemma AttemptFounded(s: State, ip: Ip, now: real, c: Config)
    requires IpAgrees(s, c, ip) && !s.sleeping && s.clock <= now && 0.0 < now && AllFounded(s.reports, s.log, c)
    ensures
      var t := Attempted(s, ip, now, c);
      AllFounded(t.reports, t.log, c)
  {
    var r := ReportOf(s.book, ip, now, c);
    hide EntryAgrees, LoginsOf, LastReport, EntryAfter, ReportAfter, Rests, Founded;
    NotedAgrees(Entered(s.book, ip), LoginsOf(s.log, ip), LastReport(s.reports, ip), s.clock, c, ip, now);
    AllFoundedLater(s.reports, s.log, Login(ip, now), c);
    if r.Some? {
      LoginsAfter(s.log, Login(ip, now), ip);
      RestsIsFounded(r.value, LoginsOf(s.log, ip) + [now], now, c);
    }
  }

  lemma AttemptSound(s: State, ip: Ip, now: real, c: Config)
    requires Sound(s, c) && s.clock <= now
    ensures Sound(Attempted(s, ip, now, c), c)
  {
    hide IpAgrees, AllFounded;
    if s.sleeping {
      LaterSound(s, s.(clock := now), c);
    } else {
      AttemptFounded(s, ip, now, c);
      forall other
        ensures IpAgrees(Attempted(s, ip, now, c), c, other)
      {
        AttemptIpAgrees(s, ip, now, c, other);
      }
    }
  }

  // Only the clock, the sleep and the calls have changed.
  lemma LaterSound(s: State, t: State, c: Config)
    requires Sound(s, c) && s.clock <= t.clock && Calls(t)
    requires t.book == s.book && t.log == s.log && t.reports == s.reports
    ensures Sound(t, c)
  {
    hide EntryAgrees, AllFounded, LoginsOf, LastReport;
    forall ip
      ensures IpAgrees(t, c, ip)
    {
      assert IpAgrees(s, c, ip);
      LaterAgrees(Entered(s.book, ip), LoginsOf(s.log, ip), LastReport(s.reports, ip), s.clock, t.clock, c);
    }
  }

  lemma EnteredAfterClean(book: Book, now: real, c: Config, ip: Ip)
    ensures Entered(CleanBook(book, now, c), ip) == CleanedEntry(Entered(book, ip), now, c)
  {
    hide CanRereport, Cleaned;
  }

  lemma CleanSound(s: State, now: real, c: Config)
    requires Sound(s, c)
    ensures Sound(s.(book := CleanBook(s.book, now, c)), c)
  {
    var t := s.(book := CleanBook(s.book, now, c));
    hide EntryAgrees, AllFounded, LoginsOf, LastReport, CleanBook, CleanedEntry;
    forall ip
      ensures IpAgrees(t, c, ip)
    {
      assert IpAgrees(s, c, ip);
      EnteredAfterClean(s.book, now, c, ip);
      CleanedAgrees(Entered(s.book, ip), LoginsOf(s.log, ip), LastReport(s.reports, ip), s.clock, now, c);
    }
  }

  // The time of a clean-up among the events; None when nothing is cleaned, as for a stop or an
  // answer with a Retry-After that finds the call of the clean-up cancelled already.
  function CleansAt(s: State, e: Event): Option<real> {
    match e
    case CleanUp(_, now) => Some(if s.sleeping then s.sleepUntil else now)
    case RetryAfter(now, retry) => if Raises(s, true) then None else Some(now + retry)
    case Stop(now) => if Raises(s, true) then None else Some(if s.sleeping then s.sleepUntil else now)
    case _ => None
  }

  /** Every step, whatever sleeps overlap, keeps the book in agreement with the history, and
      every report founded on logins. */
  lemma NextSound(s: State, e: Event, c: Config)
    requires Sound(s, c) && Enabled(s, e)
    ensures Sound(Next(s, e, c), c)
  {
    var t := Next(s, e, c);
    match e
    case Attempt(ip, now) =>
      hide Sound, Attempted;
      AttemptSound(s, ip, now, c);
    case Wake(_, _) =>
      hide Sound;
      LaterSound(s, t, c);
    case _ =>
      var u := if CleansAt(s, e).Some? then s.(book := CleanBook(s.book, CleansAt(s, e).value, c)) else s;
      if CleansAt(s, e).Some? {
        CleanSound(s, CleansAt(s, e).value, c);
      }
      assert Calls(s);
      hide Sound, CleanBook;
      assert u.book == t.book && Calls(t);
      LaterSound(u, t, c);
  }

  // ----- the spacing of reports

  // Some address is freed early.
  ghost predicate FreesEarly(book: Book, horizon: real, now: real, c: Config) {
    exists ip :: FreedEarly(Entered(book, ip), horizon, now, c)
  }

  /** After a clean-up all addresses are quiet, for logins from `horizon` on, exactly when
      they were so before and none is freed early. */
  lemma CleanUpKeepsSpacingIff(s: State, horizon: real, now: real, c: Config)
    requires Sound(s, c)
    ensures AllQuiet(s.(book := CleanBook(s.book, now, c)), horizon, c)
       <==> AllQuiet(s, horizon, c) && !FreesEarly(s.book, horizon, now, c)
  {
    var t := s.(book := CleanBook(s.book, now, c));
    hide EntryAgrees, Quiet, AllFounded, LoginsOf, LastReport, CleanBook, CleanedEntry, FreedEarly;
    forall ip
      ensures IpQuiet(t, horizon, c, ip) <==>
              (IpQuiet(s, horizon, c, ip) && !FreedEarly(Entered(s.book, ip), horizon, now, c))
    {
      assert IpAgrees(s, c, ip);
      EnteredAfterClean(s.book, now, c, ip);
      CleanedQuietIff(Entered(s.book, ip), LoginsOf(s.log, ip), LastReport(s.reports, ip), s.clock, horizon, now, c);
    }
  }

  lemma LaterQuiet(s: State, t: State, horizon: real, later: real, c: Config)
    requires AllQuiet(s, horizon, c) && horizon <= later && t.book == s.book && t.reports == s.reports
    ensures AllQuiet(t, later, c)
  {
    forall ip
      ensures IpQuiet(t, later, c, ip)
    {
      assert IpQuiet(s, horizon, c, ip);
    }
  }

  lemma AttemptIpQuiet(s: State, horizon: real, ip: Ip, now: real, c: Config, other: Ip)
    requires IpAgrees(s, c, ip) && IpQuiet(s, horizon, c, ip) && IpQuiet(s, horizon, c, other)
    requires !s.sleeping && s.clock <= now && horizon <= now && 0.0 < now
    ensures IpQuiet(Attempted(s, ip, now, c), now, c, other)
    ensures ReportOf(s.book, ip, now, c).Some? ==> Released(LastReport(s.reports, ip), now, c)
  {
    var r := ReportOf(s.book, ip, now, c);
    NotedQuiet(Entered(s.book, ip), LoginsOf(s.log, ip), LastReport(s.reports, ip), s.clock, horizon, c, ip, now);
    NotedAgrees(Entered(s.book, ip), LoginsOf(s.log, ip), LastReport(s.reports, ip), s.clock, c, ip, now);
    assert other != ip ==> Quiet(Entered(s.book, other), LastReport(s.reports, other), now, c);
    hide EntryAgrees, LoginsOf, LastReport, EntryAfter, ReportAfter, Rests, Quiet, Released;
    if r.Some? {
      LastReportAfter(s.reports, r.value, other);
      RestsIsFounded(r.value, LoginsOf(s.log, ip) + [now], now, c);
    } else {
      assert s.reports + [] == s.reports;
    }
  }

  // A state whose reports are spaced and stay so as long as logins come no earlier than `horizon`.
  ghost predicate KeepsSpacing(s: State, c: Config) {
    Spaced(s.reports, c) && AllQuiet(s, Horizon(s), c)
  }

  lemma AttemptKeepsSpacing(s: State, ip: Ip, now: real, c: Config)
    requires Sound(s, c) && KeepsSpacing(s, c) && s.clock <= now && !s.sleeping
    ensures KeepsSpacing(Attempted(s, ip, now, c), c)
  {
    var t := Attempted(s, ip, now, c);
    var r := ReportOf(s.book, ip, now, c);
    hide AllFounded, IpAgrees, IpQuiet, ReportOf, Observed, LastReport, Released;
    forall other
      ensures IpQuiet(t, now, c, other)
      ensures r.Some? ==> Released(LastReport(s.reports, ip), now, c)
    {
      AttemptIpQuiet(s, s.clock, ip, now, c, other);
    }
    AttemptIpQuiet(s, s.clock, ip, now, c, ip);
    assert IpAgrees(s, c, ip);
    if r.Some? {
      ReportIsNow(s, ip, now, c);
      assert t.reports[..|t.reports| - 1] == s.reports;
    } else {
      assert t.reports == s.reports;
    }
  }

  lemma ReportIsNow(s: State, ip: Ip, now: real, c: Config)
    requires IpAgrees(s, c, ip) && s.clock <= now && 0.0 < now && ReportOf(s.book, ip, now, c).Some?
    ensures ReportOf(s.book, ip, now, c).value.ip == ip && ReportOf(s.book, ip, now, c).value.last == now
  {
    NotedAgrees(Entered(s.book, ip), LoginsOf(s.log, ip), LastReport(s.reports, ip), s.clock, c, ip, now);
    hide EntryAgrees, Rests, ReportAfter, EntryAfter, LoginsOf, LastReport;
    RestsIsFounded(ReportOf(s.book, ip, now, c).value, LoginsOf(s.log, ip) + [now], now, c);
  }

  // At the next login the last report of every address that may be reported is old enough, and
  // the event frees no address early.
  ghost predicate Harmless(s: State, e: Event, c: Config)
    requires Enabled(s, e)
  {
    var h := Horizon(Next(s, e, c));
    AllQuiet(s, h, c) && (CleansAt(s, e).Some? ==> !FreesEarly(s.book, h, CleansAt(s, e).value, c))
  }

  lemma HorizonGrows(s: State, e: Event, c: Config)
    requires Enabled(s, e) && !e.RetryAfter?
    ensures Horizon(s) <= Horizon(Next(s, e, c))
  {
    if e.Wake? {
      LeastIsLeast(s.wakeups, e.i);
    }
    hide Attempted, CleanBook;
    assert e.Attempt? ==> Next(s, e, c).sleeping == s.sleeping && Next(s, e, c).wakeups == s.wakeups by {
      hide Least;
    }
  }

  /** An event keeps the spacing of reports exactly when it is harmless. */
  lemma NextKeepsSpacingIff(s: State, e: Event, c: Config)
    requires Sound(s, c) && KeepsSpacing(s, c) && Enabled(s, e)
    ensures KeepsSpacing(Next(s, e, c), c) <==> Harmless(s, e, c)
  {
    var t := Next(s, e, c);
    var h := Horizon(t);
    if CleansAt(s, e).Some? {
      var u := s.(book := CleanBook(s.book, CleansAt(s, e).value, c));
      assert t.book == u.book && t.reports == u.reports == s.reports;
      hide *;
      hide Sound;
      CleanUpKeepsSpacingIff(s, h, CleansAt(s, e).value, c);
      SameQuiet(u, t, h, c);
    } else if e.RetryAfter? {
      SameQuiet(s, t, h, c);
    } else {
      HorizonGrows(s, e, c);
      LaterQuiet(s, s, Horizon(s), h, c);
      if e.Attempt? && !s.sleeping {
        AttemptKeepsSpacing(s, e.ip, e.now, c);
      } else {
        SameQuiet(s, t, h, c);
      }
    }
  }

  lemma SameQuiet(s: State, t: State, horizon: real, c: Config)
    requires t.book == s.book && t.reports == s.reports
    ensures AllQuiet(t, horizon, c) <==> AllQuiet(s, horizon, c)
  {
    if AllQuiet(s, horizon, c) {
      LaterQuiet(s, t, horizon, horizon, c);
    }
    if AllQuiet(t, horizon, c) {
      LaterQuiet(t, s, horizon, horizon, c);
    }
  }

  /** A sleep, also one during another sleep, keeps the spacing exactly when at the first
      wake-up that is then pending the last report of every address that may be reported is old
      enough and, unless its clean-up is not reached as during a sleep, that clean-up frees no
      address whose quiet time still runs by then. */
  lemma SleepKeepsSpacingIff(s: State, now: real, retry: real, c: Config)
    requires Sound(s, c) && KeepsSpacing(s, c) && Enabled(s, RetryAfter(now, retry))
    ensures
      var t := Next(s, RetryAfter(now, retry), c);
      && (KeepsSpacing(t, c) <==>
            AllQuiet(s, Horizon(t), c) && (s.recall ==> !FreesEarly(s.book, Horizon(t), now + retry, c)))
      && (s.sleeping ==> !s.recall)
  {
    NextKeepsSpacingIff(s, RetryAfter(now, retry), c);
  }

  // ----- whole runs

  // The state after a list of events; None when one of them was not enabled in its turn.
  function Exec(s: State, events: seq<Event>, c: Config): Option<State> {
    if events == [] then Some(s)
    else
      match Exec(s, events[..|events| - 1], c)
      case None => None
      case Some(t) => if Enabled(t, events[|events| - 1]) then Some(Next(t, events[|events| - 1], c)) else None
  }

  lemma ExecAppend(s: State, events: seq<Event>, e: Event, c: Config)
    requires Exec(s, events, c).Some? && Enabled(Exec(s, events, c).value, e)
    ensures Exec(s, events + [e], c) == Some(Next(Exec(s, events, c).value, e, c))
  {
    assert (events + [e])[..|events + [e]| - 1] == events;
  }

  lemma {:induction false} SoundAfter(s: State, events: seq<Event>, c: Config)
    requires Sound(s, c) && Exec(s, events, c).Some?
    ensures Sound(Exec(s, events, c).value, c)
  {
    if events != [] {
      SoundAfter(s, events[..|events| - 1], c);
      hide Sound;
      NextSound(Exec(s, events[..|events| - 1], c).value, events[|events| - 1], c);
    }
  }

  lemma StartSound(start: real, c: Config)
    requires start > 0.0
    ensures Sound(Started(start), c) && KeepsSpacing(Started(start), c)
  {
  }

  /** In every run every report rests on logins of its address, as many as are needed and
      within one window. */
  lemma RunSound(start: real, events: seq<Event>, c: Config)
    requires start > 0.0 && Exec(Started(start), events, c).Some?
    ensures Sound(Exec(Started(start), events, c).value, c)
  {
    StartSound(start, c);
    hide Sound;
    SoundAfter(Started(start), events, c);
  }

  ghost predicate HarmlessRun(s: State, events: seq<Event>, c: Config) {
    events == [] ||
    (var front, e := events[..|events| - 1], events[|events| - 1];
     && HarmlessRun(s, front, c) && Exec(s, front, c).Some?
     && Enabled(Exec(s, front, c).value, e) && Harmless(Exec(s, front, c).value, e, c))
  }

  ghost predicate KeepsSpacingThroughout(s: State, events: seq<Event>, c: Config) {
    && Exec(s, events, c).Some? && KeepsSpacing(Exec(s, events, c).value, c)
    && (events == [] || KeepsSpacingThroughout(s, events[..|events| - 1], c))
  }

  /** A run keeps the spacing of reports in all of its states exactly when all its events are harmless. */
  lemma {:induction false} RunKeepsSpacingIff(s: State, events: seq<Event>, c: Config)
    requires Sound(s, c) && KeepsSpacing(s, c) && Exec(s, events, c).Some?
    ensures KeepsSpacingThroughout(s, events, c) <==> HarmlessRun(s, events, c)
  {
    if events != [] {
      var front, e := events[..|events| - 1], events[|events| - 1];
      RunKeepsSpacingIff(s, front, c);
      SoundAfter(s, front, c);
      hide Sound, KeepsSpacing, Harmless;
      if KeepsSpacingThroughout(s, front, c) {
        NextKeepsSpacingIff(Exec(s, front, c).value, e, c);
      }
    }
  }

  // Each sleep of the run begins when no wake-up call is pending.
  predicate OneSleepAtATime(s: State, events: seq<Event>, c: Config) {
    events == [] ||
    (var t, e := Exec(s, events[..|events| - 1], c), events[|events| - 1];
     OneSleepAtATime(s, events[..|events| - 1], c) && t.Some? && (e.RetryAfter? ==> t.value.wakeups == []))
  }

  // With one sleep at a time, the pending wake-up call is the one of the sleep, and no clean-up
  // takes place during a sleep. Awake there is one clean-up to come, unless the plugin stopped.
  predicate SleepsOnce(s: State) {
    if s.sleeping then s.wakeups == [s.sleepUntil] && s.cleanups == [] && !s.recall
    else s.wakeups == [] && |s.cleanups| == if s.recall then 1 else 0
  }

  lemma OneSleepIsHarmless(s: State, e: Event, c: Config)
    requires Enabled(s, e) && SleepsOnce(s) && (e.RetryAfter? ==> s.wakeups == []) && KeepsSpacing(s, c)
    ensures SleepsOnce(Next(s, e, c)) && Harmless(s, e, c)
  {
    hide CleanBook, Observed, ReportOf, AllQuiet, Spaced;
    var t := Next(s, e, c);
    assert CleansAt(s, e).Some? ==> CleansAt(s, e).value <= Horizon(t) || t.sleeping;
    LaterQuiet(s, s, Horizon(s), Horizon(t), c);
  }

  /** In every run with one sleep at a time, any two reports of one address are more than
      `rereport` apart. */
  lemma {:induction false} RunSpaced(start: real, events: seq<Event>, c: Config)
    requires start > 0.0 && Exec(Started(start), events, c).Some? && OneSleepAtATime(Started(start), events, c)
    ensures
      var s := Exec(Started(start), events, c).value;
      KeepsSpacing(s, c) && SleepsOnce(s)
  {
    if events == [] {
      StartSound(start, c);
    } else {
      var front, e := events[..|events| - 1], events[|events| - 1];
      var s := Exec(Started(start), front, c).value;
      RunSound(start, front, c);
      RunSpaced(start, front, c);
      hide Sound, KeepsSpacing, SleepsOnce, Harmless;
      OneSleepIsHarmless(s, e, c);
      NextKeepsSpacingIff(s, e, c);
    }
  }

  /** While the plugin is not stopped, `recall` names a pending clean-up exactly when it is
      awake, so the clean-up of a sleep is reached exactly when that sleep begins awake. */
  lemma {:induction false} RecallsAwakeIff(start: real, events: seq<Event>, c: Config)
    requires Exec(Started(start), events, c).Some? && forall e :: e in events ==> !e.Stop?
    ensures
      var s := Exec(Started(start), events, c).value;
      Calls(s) && (s.recall <==> !s.sleeping)
  {
    if events != [] {
      var front, e := events[..|events| - 1], events[|events| - 1];
      assert e in events;
      RecallsAwakeIff(start, front, c);
      hide CleanBook, Observed, ReportOf;
    }
  }

  // The time of the last event that scheduled a clean-up: the start, a clean-up or a wake-up.
  function LastScheduled(start: real, events: seq<Event>): real {
    if events == [] then start
    else
      match events[|events| - 1]
      case CleanUp(_, now) => now
      case Wake(_, now) => now
      case _ => LastScheduled(start, events[..|events| - 1])
  }

  /** With one sleep at a time, clean-ups come ten minutes after the start, the clean-up or the
      wake-up before. */
  lemma {:induction false} CleanUpsEveryTenMinutes(start: real, events: seq<Event>, c: Config)
    requires start > 0.0 && Exec(Started(start), events, c).Some? && OneSleepAtATime(Started(start), events, c)
    ensures
      var s := Exec(Started(start), events, c).value;
      SleepsOnce(s) && (s.recall ==> s.cleanups == [LastScheduled(start, events) + 600.0])
  {
    RunSpaced(start, events, c);
    if events != [] {
      var front, e := events[..|events| - 1], events[|events| - 1];
      CleanUpsEveryTenMinutes(start, front, c);
      hide KeepsSpacing, SleepsOnce, Next, Enabled;
      NextScheduled(Exec(Started(start), front, c).value, e, LastScheduled(start, front), c);
    }
  }

  lemma NextScheduled(s: State, e: Event, last: real, c: Config)
    requires Enabled(s, e) && SleepsOnce(s) && (s.recall ==> s.cleanups == [last + 600.0])
    ensures
      var t := Next(s, e, c);
      var scheduled :=
        match e
        case CleanUp(_, now) => now
        case Wake(_, now) => now
        case _ => last;
      SleepsOnce(t) && t.recall ==> t.cleanups == [scheduled + 600.0]
  {
    hide CleanBook, ReportOf, Observed;
  }

  // ----- no state but these keeps its reports apart

  // Logins and wake-up calls only.
  predicate LoginsOnly(events: seq<Event>) {
    forall e :: e in events ==> e.Attempt? || e.Wake?
  }

  ghost predicate StaysSpaced(s: State, events: seq<Event>, c: Config) {
    LoginsOnly(events) && Exec(s, events, c).Some? ==> Spaced(Exec(s, events, c).value.reports, c)
  }

  lemma {:induction false} LoginsKeepSpacing(s: State, events: seq<Event>, c: Config)
    requires Sound(s, c) && KeepsSpacing(s, c) && LoginsOnly(events) && Exec(s, events, c).Some?
    ensures KeepsSpacing(Exec(s, events, c).value, c)
  {
    if events != [] {
      var front, e := events[..|events| - 1], events[|events| - 1];
      assert e in events;
      LoginsKeepSpacing(s, front, c);
      SoundAfter(s, front, c);
      var t := Exec(s, front, c).value;
      HorizonGrows(t, e, c);
      hide Sound, AllQuiet, Spaced, Horizon;
      LaterQuiet(t, t, Horizon(t), Horizon(Next(t, e, c)), c);
      NextKeepsSpacingIff(t, e, c);
    }
  }

  // The entry ends in `k` logins at one time.
  predicate EndsIn(e: Option<Entry>, k: nat, at: real) {
    match e
    case None => k == 0
    case Some(Times(ts)) => k <= |ts| && forall i :: |ts| - k <= i < |ts| ==> ts[i] == at
    case Some(Reported(_)) => false
  }

  lemma {:induction false} ExpiredEndsIn(ts: seq<real>, k: nat, at: real, c: Config)
    requires c.window >= 0.0 && EndsIn(Some(Times(ts)), k, at)
    ensures EndsIn(Some(Times(CleanExpired(ts, at, c))), k, at)
  {
    if !(ts == [] || ts[0] == 0.0 || ts[0] >= at - c.window) {
      assert k < |ts|;
      ExpiredEndsIn(ts[1..], k, at, c);
    }
  }

  // Another login at that time is reported, or one login more is kept.
  lemma OneMore(
    e: Option<Entry>, logins: seq<real>, last: Option<real>, clock: real, k: nat, ip: Ip, at: real, c: Config)
    requires EntryAgrees(e, logins, last, clock, c) && EndsIn(e, k, at) && clock <= at && 0.0 < at
    requires c.attempts <= 1 || c.window >= 0.0
    ensures k < Need(c)
    ensures ReportAfter(e, ip, at, c).None? ==> EndsIn(Some(EntryAfter(e, at, c)), k + 1, at)
  {
    if c.attempts >= 2 && e.Some? && e.value.ts != [] {
      var ts := e.value.ts;
      var gone :| logins == gone + ts;
      RisingSuffix(gone, ts, clock);
      ExpiredEndsIn(ts + [at], k + 1, at, c);
    }
  }

  lemma OneAttempt(s: State, ip: Ip, k: nat, at: real, c: Config)
    requires (c.attempts <= 1 || c.window >= 0.0) && Sound(s, c)
    requires !s.sleeping && s.clock <= at && EndsIn(Entered(s.book, ip), k, at)
    requires !Released(LastReport(s.reports, ip), at, c)
    ensures
      var t := Attempted(s, ip, at, c);
      && k < Need(c) && !t.sleeping && t.clock == at
      && (if t.reports == s.reports then EndsIn(Entered(t.book, ip), k + 1, at) else !Spaced(t.reports, c))
  {
    var t := Attempted(s, ip, at, c);
    var r := ReportOf(s.book, ip, at, c);
    assert IpAgrees(s, c, ip) && s.clock > 0.0;
    OneMore(Entered(s.book, ip), LoginsOf(s.log, ip), LastReport(s.reports, ip), s.clock, k, ip, at, c);
    hide Sound, IpAgrees, EntryAgrees, EndsIn, EntryAfter, ReportAfter, Released, LastReport;
    if r.Some? {
      ReportIsNow(s, ip, at, c);
      assert t.reports[..|t.reports| - 1] == s.reports && |t.reports| == |s.reports| + 1;
    } else {
      assert t.reports == s.reports;
    }
  }

  // An address that may be reported too soon, and is, after enough logins.
  lemma Provoke(s0: State, events: seq<Event>, s: State, ip: Ip, k: nat, at: real, c: Config)
    returns (events': seq<Event>)
    requires c.attempts <= 1 || c.window >= 0.0
    requires Exec(s0, events, c) == Some(s) && LoginsOnly(events) && Sound(s, c)
    requires !s.sleeping && s.clock <= at && EndsIn(Entered(s.book, ip), k, at)
    requires !Released(LastReport(s.reports, ip), at, c)
    ensures !StaysSpaced(s0, events', c)
    decreases Need(c) - k
  {
    var e := Attempt(ip, at);
    var t := Attempted(s, ip, at, c);
    events' := events + [e];
    hide Sound, Attempted, EndsIn, Released, LastReport, Spaced, Exec;
    ExecAppend(s0, events, e, c);
    NextSound(s, e, c);
    OneAttempt(s, ip, k, at, c);
    if t.reports == s.reports {
      events' := Provoke(s0, events', t, ip, k + 1, at, c);
    }
  }

  lemma {:induction false} LeastIsOne(ts: seq<real>) returns (i: nat)
    requires ts != []
    ensures i < |ts| && ts[i] == Least(ts)
  {
    if |ts| == 1 || ts[0] <= Least(ts[1..]) {
      i := 0;
    } else {
      i := LeastIsOne(ts[1..]);
      i := i + 1;
    }
  }

  lemma Breaks(s: State, ip: Ip, c: Config) returns (events: seq<Event>)
    requires Sound(s, c) && (c.attempts <= 1 || c.window >= 0.0)
    requires !IpQuiet(s, Horizon(s), c, ip)
    ensures !StaysSpaced(s, events, c)
  {
    var t, h := s, Horizon(s);
    events := [];
    if s.sleeping {
      var i := LeastIsOne(s.wakeups);
      var e := Wake(i, h);
      ExecAppend(s, [], e, c);
      NextSound(s, e, c);
      t, events := Next(s, e, c), [] + [e];
    }
    hide Sound, Horizon;
    events := Provoke(s, events, t, ip, 0, h, c);
  }

  // Nothing is ever reported: each login has left the window when the next one comes.
  predicate NeverReports(c: Config) { c.attempts >= 2 && c.window < 0.0 }

  lemma {:induction false} AllExpire(ts: seq<real>, now: real, c: Config)
    requires c.window < 0.0 && Rising(ts, now)
    ensures CleanExpired(ts, now, c) == []
  {
    if ts != [] {
      AllExpire(ts[1..], now, c);
    }
  }

  lemma NoReport(s: State, ip: Ip, now: real, c: Config)
    requires IpAgrees(s, c, ip) && s.clock <= now && 0.0 < now && NeverReports(c)
    ensures ReportOf(s.book, ip, now, c).None?
  {
    var e := Entered(s.book, ip);
    if e.Some? && e.value.Times? && e.value.ts != [] {
      var logins := LoginsOf(s.log, ip);
      var gone :| logins == gone + e.value.ts;
      RisingAppend(logins, s.clock, now);
      ConcatAssociates(gone, e.value.ts, [now]);
      RisingSuffix(gone, e.value.ts + [now], now);
      AllExpire(e.value.ts + [now], now, c);
    }
  }

  lemma {:induction false} NoReports(s: State, events: seq<Event>, c: Config)
    requires Sound(s, c) && NeverReports(c) && Exec(s, events, c).Some?
    ensures Exec(s, events, c).value.reports == s.reports
  {
    if events != [] {
      var front, e := events[..|events| - 1], events[|events| - 1];
      NoReports(s, front, c);
      SoundAfter(s, front, c);
      var t := Exec(s, front, c).value;
      if e.Attempt? && !t.sleeping {
        NoReport(t, e.ip, e.now, c);
      }
    }
  }

  /** A state keeps its reports apart, whatever logins and wake-up calls follow, exactly when
      `KeepsSpacing` holds of it, or no login is ever reported. */
  lemma StaysSpacedIff(s: State, c: Config)
    requires Sound(s, c)
    ensures (forall events :: StaysSpaced(s, events, c))
       <==> KeepsSpacing(s, c) || (Spaced(s.reports, c) && NeverReports(c))
  {
    if KeepsSpacing(s, c) || (Spaced(s.reports, c) && NeverReports(c)) {
      forall events
        ensures StaysSpaced(s, events, c)
      {
        if LoginsOnly(events) && Exec(s, events, c).Some? {
          if NeverReports(c) {
            NoReports(s, events, c);
          } else {
            LoginsKeepSpacing(s, events, c);
          }
        }
      }
    } else if !Spaced(s.reports, c) {
      assert !StaysSpaced(s, [], c);
    } else {
      var ip :| !IpQuiet(s, Horizon(s), c, ip);
      var _ := Breaks(s, ip, c);
    }
  }

  // ----- when logins do and do not lead to a report

  /** A clean-up keeps the young logins of an address exactly when there are two of them
      at least and the second is not yet `rereport` old: a single login is thrown away,
      as asking for the second time stamp raises an IndexError. */
  lemma CleanUpKeepsLogins(book: Book, ip: Ip, now: real, c: Config)
    requires c.attempts >= 2 && ip in book && book[ip].Times? && book[ip].ts != []
    requires Rising(book[ip].ts, now) && AllFrom(book[ip].ts, now - c.window)
    ensures ip in CleanBook(book, now, c) && CleanBook(book, now, c)[ip] == book[ip]
       <==> |book[ip].ts| >= 2 && now <= book[ip].ts[1] + c.rereport
  {
    assert CleanExpired(book[ip].ts, now, c) == book[ip].ts;
  }

  // The book after logins of one address.
  function AfterLogins(book: Book, ip: Ip, ts: seq<real>, c: Config): Book {
    if ts == [] then book else Observed(AfterLogins(book, ip, ts[..|ts| - 1], c), ip, ts[|ts| - 1], c)
  }

  // The report at the last of some logins of one address.
  function LastOf(book: Book, ip: Ip, ts: seq<real>, c: Config): Option<Report>
    requires ts != []
  {
    ReportOf(AfterLogins(book, ip, ts[..|ts| - 1], c), ip, ts[|ts| - 1], c)
  }

  ghost predicate InOneWindow(ts: seq<real>, c: Config) {
    && ts != [] && Rising(ts, ts[|ts| - 1])
    && (c.attempts >= 2 ==> AllFrom(ts, ts[|ts| - 1] - c.window))
  }

  lemma FrontInWindow(front: seq<real>, now: real, c: Config)
    requires front != [] && InOneWindow(front + [now], c)
    ensures InOneWindow(front, c) && front[0] > 0.0 && (c.attempts >= 2 ==> front[0] >= now - c.window)
  {
    var ts := front + [now];
    assert ts[|ts| - 1] == now && forall i :: 0 <= i < |front| ==> front[i] == ts[i] && 0.0 < ts[i] <= now;
  }

  // Nothing is known of the address, or it may be reported anew from the time `at` on.
  predicate Fresh(book: Book, ip: Ip, at: real, c: Config) {
    ip in book ==> book[ip].Reported? && at > book[ip].at + c.rereport
  }

  // What logins of a fresh address have led to: only the last of as many as are needed is reported.
  ghost predicate LedTo(book: Book, ip: Ip, ts: seq<real>, c: Config)
    requires ts != []
  {
    && (|ts| < Need(c) ==> LastOf(book, ip, ts, c) == None)
    && (|ts| < Need(c) ==> Entered(AfterLogins(book, ip, ts, c), ip) == Some(Times(ts)))
    && (|ts| == Need(c) ==> LastOf(book, ip, ts, c) == Some(Report(ip, ts[0], ts[|ts| - 1])))
  }

  lemma FirstLogin(book: Book, ip: Ip, now: real, c: Config)
    requires Fresh(book, ip, now, c)
    ensures LedTo(book, ip, [now], c)
  {
    assert [now][..0] == [];
  }

  // One login more within the window.
  lemma NextLogin(book: Book, ip: Ip, front: seq<real>, now: real, c: Config)
    requires 0 < |front| < Need(c) && LedTo(book, ip, front, c)
    requires front[0] > 0.0 && (c.attempts >= 2 ==> front[0] >= now - c.window)
    ensures LedTo(book, ip, front + [now], c)
  {
    assert (front + [now])[..|front|] == front;
    NotedAppends(front, now, c);
    hide Noted;
  }

  /** Logins within one window of an address that is new, or whose quiet time is over, with no
      clean-up between them, lead to a report at the `attempts`-th of them and not before. */
  lemma {:induction false} LoginsLeadToReport(book: Book, ip: Ip, ts: seq<real>, c: Config)
    requires |ts| <= Need(c) && InOneWindow(ts, c) && Fresh(book, ip, ts[0], c)
    ensures ts != [] && LedTo(book, ip, ts, c)
  {
    assert ts != [] by {
      hide Rising, AllFrom;
    }
    var front, now := ts[..|ts| - 1], ts[|ts| - 1];
    assert front + [now] == ts;
    hide *;
    if front == [] {
      assert ts == [now];
      FirstLogin(book, ip, now, c);
    } else {
      FrontInWindow(front, now, c);
      LoginsLeadToReport(book, ip, front, c);
      NextLogin(book, ip, front, now, c);
    }
  }

  lemma NotedAppends(front: seq<real>, now: real, c: Config)
    requires 0 < |front| < c.attempts
    requires front[0] > 0.0 && front[0] >= now - c.window
    ensures Noted(Some(Times(front)), now, c) == Times(front + [now])
  {
  }

  // ----- exactly which logins are reported

  // The logins after the quiet time of the last report.
  function AfterQuiet(logins: seq<real>, last: Option<real>, c: Config): seq<real> {
    if logins == [] then []
    else
      var front, t := logins[..|logins| - 1], logins[|logins| - 1];
      AfterQuiet(front, last, c) + if last.Some? && t <= last.value + c.rereport then [] else [t]
  }

  // Those from a given time on.
  function From(ts: seq<real>, from: real): seq<real> {
    if ts == [] then [] else From(ts[..|ts| - 1], from) + if ts[|ts| - 1] < from then [] else [ts[|ts| - 1]]
  }

  /** A login at `now` is to be reported when the quiet time of the last report is over and, as
      far as it takes more than one, enough logins since then lie within the window. */
  predicate Due(logins: seq<real>, last: Option<real>, now: real, c: Config) {
    && (last.Some? ==> now > last.value + c.rereport)
    && (c.attempts <= 1 || |From(AfterQuiet(logins + [now], last, c), now - c.window)| >= c.attempts)
  }

  // What an entry has kept of the history of its address: all that still matters.
  ghost predicate Remembers(e: Option<Entry>, logins: seq<real>, last: Option<real>, clock: real, c: Config) {
    var since := AfterQuiet(logins, last, c);
    match e
    case None => From(since, clock - c.window) == [] && (last.Some? ==> clock > last.value + c.rereport)
    case Some(Reported(at)) => last == Some(at) && since == []
    case Some(Times(ts)) =>
      && 0 < |ts| < Need(c) && (last.Some? ==> clock > last.value + c.rereport)
      && exists m :: m <= clock - c.window && ts == From(since, m)
  }

  // The clean-up throws logins away that are still within the window.
  predicate Forgets(e: Option<Entry>, now: real, c: Config) {
    e.Some? && e.value.Times? && CanRereport(e.value, now, c) && CleanExpired(e.value.ts, now, c) != []
  }

  lemma FromAfter(ts: seq<real>, t: real, from: real)
    ensures From(ts + [t], from) == From(ts, from) + if t < from then [] else [t]
  {
    assert (ts + [t])[..|ts + [t]| - 1] == ts;
  }

  lemma AfterQuietAfter(logins: seq<real>, t: real, last: Option<real>, c: Config)
    ensures
      AfterQuiet(logins + [t], last, c)
      == AfterQuiet(logins, last, c) + if last.Some? && t <= last.value + c.rereport then [] else [t]
  {
    assert (logins + [t])[..|logins + [t]| - 1] == logins;
  }

  lemma {:induction false} FromTwice(ts: seq<real>, m: real, from: real)
    requires m <= from
    ensures From(From(ts, m), from) == From(ts, from)
  {
    if ts != [] {
      var front, t := ts[..|ts| - 1], ts[|ts| - 1];
      FromTwice(front, m, from);
      FromAfter(From(front, m), t, from);
      assert From(front, m) + [] == From(front, m) && From(front, from) + [] == From(front, from);
    }
  }

  lemma {:induction false} FromAll(ts: seq<real>, from: real)
    requires forall i :: 0 <= i < |ts| ==> ts[i] >= from
    ensures From(ts, from) == ts
  {
    if ts != [] {
      FromAll(ts[..|ts| - 1], from);
      assert ts[..|ts| - 1] + [ts[|ts| - 1]] == ts;
    }
  }

  lemma {:induction false} FromCons(t: real, ts: seq<real>, from: real)
    ensures From([t] + ts, from) == (if t < from then [] else [t]) + From(ts, from)
  {
    if ts == [] {
      FromAfter([], t, from);
      assert [t] + [] == [] + [t];
    } else {
      var front, u := ts[..|ts| - 1], ts[|ts| - 1];
      FromCons(t, front, from);
      assert [t] + ts == ([t] + front) + [u];
      FromAfter([t] + front, u, from);
      ConcatAssociates(if t < from then [] else [t], From(front, from), if u < from then [] else [u]);
    }
  }

  lemma FromTail(ts: seq<real>, from: real)
    requires ts != [] && ts[0] < from
    ensures From(ts, from) == From(ts[1..], from)
  {
    assert ts == [ts[0]] + ts[1..];
    FromCons(ts[0], ts[1..], from);
    assert [] + From(ts[1..], from) == From(ts[1..], from);
  }

  lemma RisingTail(ts: seq<real>, clock: real, from: real)
    requires Rising(ts, clock) && ts != []
    ensures Rising(ts[1..], clock) && ts[0] > 0.0 && (ts[0] >= from ==> AllFrom(ts, from))
  {
  }

  // Of rising times the clean-up keeps exactly the young ones.
  lemma {:induction false} CleanIsFrom(ts: seq<real>, clock: real, now: real, c: Config)
    requires Rising(ts, clock)
    ensures CleanExpired(ts, now, c) == From(ts, now - c.window)
  {
    if ts != [] {
      hide Rising, From;
      RisingTail(ts, clock, now - c.window);
      if ts[0] >= now - c.window {
        FromAll(ts, now - c.window);
      } else {
        hide AllFrom;
        CleanIsFrom(ts[1..], clock, now, c);
        FromTail(ts, now - c.window);
      }
    }
  }

  lemma {:induction false} QuietIsEmpty(logins: seq<real>, last: real, c: Config)
    requires forall i :: 0 <= i < |logins| ==> logins[i] <= last + c.rereport
    ensures AfterQuiet(logins, Some(last), c) == []
  {
    if logins != [] {
      QuietIsEmpty(logins[..|logins| - 1], last, c);
    }
  }

  ghost predicate StepRemembers(e: Option<Entry>, logins: seq<real>, last: Option<real>, now: real, c: Config) {
    var r := ReportAfter(e, "", now, c);
    && (r.Some? <==> Due(logins, last, now, c))
    && Remembers(Some(EntryAfter(e, now, c)), logins + [now], if r.Some? then Some(now) else last, now, c)
  }

  // After a report at `now` no login so far counts any more.
  lemma ReportedRemembers(logins: seq<real>, clock: real, now: real, c: Config)
    requires Rising(logins, clock) && clock <= now && 0.0 < now && c.rereport >= 0.0
    ensures Remembers(Some(Reported(now)), logins + [now], Some(now), now, c)
  {
    RisingAppend(logins, clock, now);
    assert forall i :: 0 <= i < |logins + [now]| ==> (logins + [now])[i] <= now;
    QuietIsEmpty(logins + [now], now, c);
  }

  lemma IntolerantRemembers(e: Option<Entry>, logins: seq<real>, last: Option<real>, clock: real, c: Config, now: real)
    requires c.attempts <= 1 && c.rereport >= 0.0 && Rising(logins, clock) && clock <= now && 0.0 < now
    requires Remembers(e, logins, last, clock, c)
    ensures StepRemembers(e, logins, last, now, c)
  {
    ReportedRemembers(logins, clock, now, c);
    AfterQuietAfter(logins, now, last, c);
    hide AfterQuiet, From, Rising;
  }

  // The deque after a login that is not in a quiet time.
  lemma KeptSince(ts: seq<real>, since: seq<real>, m: real, clock: real, now: real, c: Config)
    requires 0 < |ts| < c.attempts && ts == From(since, m) && m <= clock - c.window && clock <= now && 0.0 < now
    requires Rising(ts, clock)
    ensures CleanExpired(AppendBounded(ts, now, c.attempts), now, c) == From(since + [now], now - c.window)
    ensures ts[0] > 0.0
  {
    RisingAppend(ts, clock, now);
    CleanIsFrom(ts + [now], now, now, c);
    FromAfter(ts, now, now - c.window);
    FromTwice(since, m, now - c.window);
    FromAfter(since, now, now - c.window);
    hide From, CleanExpired;
  }

  lemma TolerantQuietRemembers(
    e: Option<Entry>, logins: seq<real>, last: Option<real>, clock: real, c: Config, now: real)
    requires c.attempts >= 2 && clock <= now && last.Some? && now <= last.value + c.rereport
    requires Remembers(e, logins, last, clock, c)
    ensures StepRemembers(e, logins, last, now, c)
  {
    AfterQuietAfter(logins, now, last, c);
    hide AfterQuiet, From, CleanExpired;
  }

  lemma FirstKept(e: Option<Entry>, now: real, c: Config)
    requires c.attempts >= 2 && (e.Some? ==> e.value.Reported? && now > e.value.at + c.rereport)
    ensures EntryAfter(e, now, c) == Times([now]) && ReportAfter(e, "", now, c) == None
  {
  }

  lemma FirstSince(since: seq<real>, clock: real, now: real, c: Config)
    requires From(since, clock - c.window) == [] && clock <= now && c.window >= 0.0
    ensures From(since + [now], now - c.window) == [now]
  {
    FromTwice(since, clock - c.window, now - c.window);
    FromAfter(since, now, now - c.window);
  }

  lemma FirstRemembers(logins: seq<real>, last: Option<real>, now: real, c: Config)
    requires c.attempts >= 2 && (last.Some? ==> now > last.value + c.rereport)
    requires From(AfterQuiet(logins + [now], last, c), now - c.window) == [now]
    ensures Remembers(Some(Times([now])), logins + [now], last, now, c) && !Due(logins, last, now, c)
  {
    hide From, AfterQuiet;
  }

  lemma TolerantFirstRemembers(
    e: Option<Entry>, logins: seq<real>, last: Option<real>, clock: real, c: Config, now: real)
    requires c.attempts >= 2 && c.window >= 0.0 && clock <= now
    requires last.Some? ==> now > last.value + c.rereport
    requires Remembers(e, logins, last, clock, c) && !(e.Some? && e.value.Times?)
    ensures StepRemembers(e, logins, last, now, c)
  {
    var since := AfterQuiet(logins, last, c);
    assert since == [] || From(since, clock - c.window) == [];
    assert From([], clock - c.window) == [];
    hide From, AfterQuiet, Due, EntryAfter, ReportAfter;
    FirstKept(e, now, c);
    FirstSince(since, clock, now, c);
    AfterQuietAfter(logins, now, last, c);
    hide Remembers;
    FirstRemembers(logins, last, now, c);
  }

  lemma NextKept(ts: seq<real>, kept: seq<real>, now: real, c: Config)
    requires c.attempts >= 2 && ts != [] && ts[0] > 0.0
    requires kept == CleanExpired(AppendBounded(ts, now, c.attempts), now, c) && kept != [] && kept[|kept| - 1] == now
    ensures ReportAfter(Some(Times(ts)), "", now, c).Some? <==> |kept| >= c.attempts
    ensures EntryAfter(Some(Times(ts)), now, c) == if |kept| >= c.attempts then Reported(now) else Times(kept)
  {
    hide CleanExpired, AppendBounded;
  }

  lemma NextRemembers(logins: seq<real>, last: Option<real>, now: real, c: Config)
    requires c.attempts >= 2 && (last.Some? ==> now > last.value + c.rereport)
    ensures
      var kept := From(AfterQuiet(logins + [now], last, c), now - c.window);
      && (Due(logins, last, now, c) <==> |kept| >= c.attempts)
      && (0 < |kept| < c.attempts ==> Remembers(Some(Times(kept)), logins + [now], last, now, c))
  {
    hide From, AfterQuiet;
  }

  lemma TolerantNextRemembers(
    e: Option<Entry>, logins: seq<real>, last: Option<real>, clock: real, c: Config, now: real)
    requires c.attempts >= 2 && c.window >= 0.0 && c.rereport >= 0.0 && clock <= now && 0.0 < now
    requires Rising(logins, clock) && Remembers(e, logins, last, clock, c) && e.Some? && e.value.Times?
    requires Rising(e.value.ts, clock)
    ensures StepRemembers(e, logins, last, now, c)
  {
    var since, ts := AfterQuiet(logins, last, c), e.value.ts;
    var m :| m <= clock - c.window && ts == From(since, m);
    hide AfterQuiet, From, Rising, CleanExpired, AppendBounded, Remembers, Due, EntryAfter, ReportAfter;
    KeptSince(ts, since, m, clock, now, c);
    AfterQuietAfter(logins, now, last, c);
    FromAfter(since, now, now - c.window);
    NextKept(ts, From(since + [now], now - c.window), now, c);
    NextRemembers(logins, last, now, c);
    ReportedRemembers(logins, clock, now, c);
  }

  lemma StepKeepsMemory(e: Option<Entry>, logins: seq<real>, last: Option<real>, clock: real, c: Config, now: real)
    requires (c.attempts <= 1 || c.window >= 0.0) && c.rereport >= 0.0 && clock <= now && 0.0 < now
    requires EntryAgrees(e, logins, last, clock, c) && Remembers(e, logins, last, clock, c)
    ensures StepRemembers(e, logins, last, now, c)
  {
    assert Rising(logins, clock);
    if e.Some? && e.value.Times? {
      var gone :| logins == gone + e.value.ts;
      RisingSuffix(gone, e.value.ts, clock);
    }
    hide Rising, StepRemembers, AfterQuiet, From, Ends;
    if c.attempts <= 1 {
      IntolerantRemembers(e, logins, last, clock, c, now);
    } else if last.Some? && now <= last.value + c.rereport {
      TolerantQuietRemembers(e, logins, last, clock, c, now);
    } else if e.Some? && e.value.Times? {
      TolerantNextRemembers(e, logins, last, clock, c, now);
    } else {
      TolerantFirstRemembers(e, logins, last, clock, c, now);
    }
  }

  lemma CleanedTimes(ts: seq<real>, since: seq<real>, m: real, clock: real, now: real, c: Config)
    requires Rising(ts, clock) && ts == From(since, m) && m <= clock - c.window && clock <= now
    ensures CleanExpired(ts, now, c) == From(since, now - c.window) && |CleanExpired(ts, now, c)| <= |ts|
  {
    hide *;
    CleanIsFrom(ts, clock, now, c);
    FromTwice(since, m, now - c.window);
    var older := CleanIsSuffix(ts, clock, now, c);
  }

  lemma CleanedTimesRemembers(
    ts: seq<real>, logins: seq<real>, last: Option<real>, clock: real, now: real, c: Config)
    requires Remembers(Some(Times(ts)), logins, last, clock, c) && Rising(ts, clock)
    requires clock <= now && !Forgets(Some(Times(ts)), now, c)
    ensures Remembers(CleanedEntry(Some(Times(ts)), now, c), logins, last, now, c)
  {
    var since := AfterQuiet(logins, last, c);
    var m :| m <= clock - c.window && ts == From(since, m);
    CleanedTimes(ts, since, m, clock, now, c);
    hide AfterQuiet, From, Rising, CleanExpired, CanRereport;
  }

  /** A clean-up that does not throw young logins of the address away changes nothing about
      what is reported later. */
  lemma CleanKeepsMemory(e: Option<Entry>, logins: seq<real>, last: Option<real>, clock: real, now: real, c: Config)
    requires EntryAgrees(e, logins, last, clock, c) && Remembers(e, logins, last, clock, c)
    requires clock <= now && !Forgets(e, now, c)
    ensures Remembers(CleanedEntry(e, now, c), logins, last, now, c)
  {
    if e.Some? && e.value.Times? {
      var gone :| logins == gone + e.value.ts;
      RisingSuffix(gone, e.value.ts, clock);
      hide Remembers, Forgets, Rising, CleanedEntry;
      CleanedTimesRemembers(e.value.ts, logins, last, clock, now, c);
    } else {
      FromTwice(AfterQuiet(logins, last, c), clock - c.window, now - c.window);
      assert From([], now - c.window) == [];
      hide AfterQuiet, From, Rising;
    }
  }

  ghost predicate IpRemembers(s: State, ip: Ip, c: Config) {
    Remembers(Entered(s.book, ip), LoginsOf(s.log, ip), LastReport(s.reports, ip), s.clock, c)
  }

  // Logins and clean-ups, none of which throws young logins of the address away.
  ghost predicate Unforgotten(s: State, events: seq<Event>, ip: Ip, c: Config) {
    events == [] ||
    (var front, e := events[..|events| - 1], events[|events| - 1];
     && Unforgotten(s, front, ip, c) && Exec(s, front, c).Some?
     && (e.Attempt? || (e.CleanUp? && !Forgets(Entered(Exec(s, front, c).value.book, ip), e.now, c))))
  }

  lemma AttemptOfOther(s: State, other: Ip, now: real, c: Config, ip: Ip)
    requires IpAgrees(s, c, other) && IpRemembers(s, ip, c) && ip != other
    requires s.clock <= now && 0.0 < now && !s.sleeping
    ensures IpRemembers(Attempted(s, other, now, c), ip, c)
  {
    LoginsAfter(s.log, Login(other, now), ip);
    if ReportOf(s.book, other, now, c).Some? {
      ReportIsNow(s, other, now, c);
      LastReportAfter(s.reports, ReportOf(s.book, other, now, c).value, ip);
    } else {
      assert s.reports + [] == s.reports;
    }
    hide LoginsOf, LastReport, Remembers, EntryAfter, ReportAfter, IpAgrees;
    LaterRemembers(Entered(s.book, ip), LoginsOf(s.log, ip), LastReport(s.reports, ip), s.clock, now, c);
  }

  lemma AttemptOfSame(s: State, ip: Ip, now: real, c: Config)
    requires (c.attempts <= 1 || c.window >= 0.0) && c.rereport >= 0.0 && s.clock <= now && 0.0 < now
    requires IpAgrees(s, c, ip) && IpRemembers(s, ip, c) && !s.sleeping
    ensures IpRemembers(Attempted(s, ip, now, c), ip, c)
  {
    var e, logins, last := Entered(s.book, ip), LoginsOf(s.log, ip), LastReport(s.reports, ip);
    LoginsAfter(s.log, Login(ip, now), ip);
    if ReportOf(s.book, ip, now, c).Some? {
      ReportIsNow(s, ip, now, c);
      LastReportAfter(s.reports, ReportOf(s.book, ip, now, c).value, ip);
    } else {
      assert s.reports + [] == s.reports;
    }
    hide LoginsOf, LastReport, Remembers, EntryAfter, ReportAfter, EntryAgrees, Due;
    StepKeepsMemory(e, logins, last, s.clock, c, now);
    ReportOfSame(e, ip, now, c);
  }

  lemma AttemptKeepsMemory(s: State, other: Ip, now: real, c: Config, ip: Ip)
    requires (c.attempts <= 1 || c.window >= 0.0) && c.rereport >= 0.0 && s.clock <= now && !s.sleeping
    requires Sound(s, c) && IpRemembers(s, ip, c)
    ensures IpRemembers(Attempted(s, other, now, c), ip, c)
  {
    assert IpAgrees(s, c, ip) && IpAgrees(s, c, other) && s.clock > 0.0;
    hide Sound, Attempted, IpRemembers, IpAgrees;
    if ip == other {
      AttemptOfSame(s, ip, now, c);
    } else {
      AttemptOfOther(s, other, now, c, ip);
    }
  }

  lemma ReportOfSame(e: Option<Entry>, ip: Ip, now: real, c: Config)
    ensures ReportAfter(e, ip, now, c).Some? <==> ReportAfter(e, "", now, c).Some?
  {
    hide CanRereport, CleanExpired;
  }

  lemma LaterRemembers(e: Option<Entry>, logins: seq<real>, last: Option<real>, clock: real, now: real, c: Config)
    requires Remembers(e, logins, last, clock, c) && clock <= now
    ensures Remembers(e, logins, last, now, c)
  {
    FromTwice(AfterQuiet(logins, last, c), clock - c.window, now - c.window);
    hide AfterQuiet;
  }

  lemma {:induction false} RunRemembers(start: real, events: seq<Event>, ip: Ip, c: Config)
    requires start > 0.0 && (c.attempts <= 1 || c.window >= 0.0) && c.rereport >= 0.0
    requires Exec(Started(start), events, c).Some? && Unforgotten(Started(start), events, ip, c)
    ensures !Exec(Started(start), events, c).value.sleeping
    ensures IpRemembers(Exec(Started(start), events, c).value, ip, c)
  {
    if events != [] {
      var front, e := events[..|events| - 1], events[|events| - 1];
      var s := Exec(Started(start), front, c).value;
      RunRemembers(start, front, ip, c);
      RunSound(start, front, c);
      hide Sound, IpRemembers, Attempted, CleanBook, Forgets;
      if e.Attempt? {
        AttemptKeepsMemory(s, e.ip, e.now, c, ip);
        AttemptStaysAwake(s, e.ip, e.now, c);
      } else {
        CleanUpKeepsMemory(s, e.i, e.now, c, ip);
      }
    }
  }

  lemma AttemptStaysAwake(s: State, ip: Ip, now: real, c: Config)
    ensures Attempted(s, ip, now, c).sleeping == s.sleeping
  {
  }

  lemma CleanUpKeepsMemory(s: State, i: nat, now: real, c: Config, ip: Ip)
    requires Enabled(s, CleanUp(i, now)) && !s.sleeping && Sound(s, c) && IpRemembers(s, ip, c)
    requires !Forgets(Entered(s.book, ip), now, c)
    ensures IpRemembers(Next(s, CleanUp(i, now), c), ip, c) && !Next(s, CleanUp(i, now), c).sleeping
  {
    assert IpAgrees(s, c, ip);
    hide Sound, LoginsOf, LastReport, Remembers, CleanBook, Forgets, EntryAgrees;
    EnteredAfterClean(s.book, now, c, ip);
    CleanKeepsMemory(Entered(s.book, ip), LoginsOf(s.log, ip), LastReport(s.reports, ip), s.clock, now, c);
  }

  lemma {:induction false} NoneFrom(ts: seq<real>, from: real)
    requires forall i :: 0 <= i < |ts| ==> ts[i] < from
    ensures From(ts, from) == []
  {
    if ts != [] {
      NoneFrom(ts[..|ts| - 1], from);
    }
  }

  lemma {:induction false} AfterQuietIsPart(logins: seq<real>, last: Option<real>, c: Config)
    ensures forall x :: x in AfterQuiet(logins, last, c) ==> x in logins
  {
    if logins != [] {
      AfterQuietIsPart(logins[..|logins| - 1], last, c);
    }
  }

  // With a negative window no login is ever due.
  lemma NeverDue(logins: seq<real>, last: Option<real>, clock: real, now: real, c: Config)
    requires Rising(logins, clock) && clock <= now && 0.0 < now && NeverReports(c)
    ensures !Due(logins, last, now, c)
  {
    var since := AfterQuiet(logins + [now], last, c);
    RisingAppend(logins, clock, now);
    AfterQuietIsPart(logins + [now], last, c);
    forall i | 0 <= i < |since|
      ensures since[i] < now - c.window
    {
      assert since[i] in since;
    }
    NoneFrom(since, now - c.window);
  }

  /** In every run of logins and of clean-ups that throw no young logins of the address away, a
      login is reported exactly when it is due by the whole history of its address. */
  lemma WhichLoginsReport(start: real, events: seq<Event>, ip: Ip, now: real, c: Config)
    requires start > 0.0 && c.rereport >= 0.0
    requires Exec(Started(start), events, c).Some? && Unforgotten(Started(start), events, ip, c)
    requires Exec(Started(start), events, c).value.clock <= now
    ensures
      var s := Exec(Started(start), events, c).value;
      ReportOf(s.book, ip, now, c).Some? <==> Due(LoginsOf(s.log, ip), LastReport(s.reports, ip), now, c)
  {
    var s := Exec(Started(start), events, c).value;
    RunSound(start, events, c);
    assert IpAgrees(s, c, ip) && s.clock > 0.0;
    if NeverReports(c) {
      NoReport(s, ip, now, c);
      NeverDue(LoginsOf(s.log, ip), LastReport(s.reports, ip), s.clock, now, c);
    } else {
      RunRemembers(start, events, ip, c);
      hide Exec, Sound, Due, EntryAfter, ReportAfter, LoginsOf, LastReport, EntryAgrees, Remembers;
      StepKeepsMemory(Entered(s.book, ip), LoginsOf(s.log, ip), LastReport(s.reports, ip), s.clock, c, now);
      ReportOfSame(Entered(s.book, ip), ip, now, c);
    }
  }

  /** Logins kept from a run with a higher tolerance do not hold a report back: with a tolerance
      of one attempt or none such an address is reported at once, and a clean-up drops it. */
  lemma CarriedLogsReport(book: Book, ip: Ip, ts: seq<real>, now: real, c: Config)
    requires c.attempts <= 1 && Entered(book, ip) == Some(Times(ts)) && ts != [] && ts[0] > 0.0
    ensures ReportOf(book, ip, now, c) == Some(Report(ip, now, now))
    ensures Entered(Observed(book, ip, now, c), ip) == Some(Reported(now))
    ensures ip !in CleanBook(book, now, c)
  {
  }

  // While the quiet time of a report runs, logins change nothing and are not reported.
  lemma {:induction false} StaysReported(book: Book, ip: Ip, at: real, ts: seq<real>, c: Config)
    requires Entered(book, ip) == Some(Reported(at)) && forall i :: 0 <= i < |ts| ==> ts[i] <= at + c.rereport
    ensures Entered(AfterLogins(book, ip, ts, c), ip) == Some(Reported(at))
    ensures ts != [] ==> LastOf(book, ip, ts, c) == None
  {
    if ts != [] {
      StaysReported(book, ip, at, ts[..|ts| - 1], c);
    }
  }

  // Logins from `horizon` on can lead to a report of an address although its report at `at`
  // is not more than `rereport` old.
  ghost predicate ReportsTooSoon(book: Book, ip: Ip, at: real, horizon: real, c: Config) {
    exists ts :: TooSoon(book, ip, at, horizon, ts, c)
  }

  ghost predicate TooSoon(book: Book, ip: Ip, at: real, horizon: real, ts: seq<real>, c: Config) {
    && ts != [] && Rising(ts, ts[|ts| - 1]) && AllFrom(ts, horizon)
    && ts[|ts| - 1] <= at + c.rereport && LastOf(book, ip, ts, c).Some?
  }

  // An entry that keeps one login at most.
  predicate Short(e: Option<Entry>, clock: real) {
    e.Some? && e.value.Times? ==> |e.value.ts| <= 1 && forall t :: t in e.value.ts ==> 0.0 < t <= clock
  }

  lemma ShortStays(e: Option<Entry>, clock: real, now: real, c: Config)
    requires c.attempts >= 2 && c.window < 0.0 && Short(e, clock) && clock <= now && 0.0 < now
    ensures !Completes(e, now, c) && Short(Some(Noted(e, now, c)), now)
  {
    if e.Some? && e.value.Times? && e.value.ts != [] {
      var u := e.value.ts[0];
      assert u in e.value.ts && e.value.ts == [u];
      assert AppendBounded([u], now, c.attempts) == [u, now];
      assert [u, now][1..] == [now] && [now][1..] == [];
      assert CleanExpired([now], now, c) == [];
      assert CleanExpired([u, now], now, c) == [];
    }
  }

  // With a negative window each login is expired when the next one comes.
  lemma {:induction false} NegativeWindowNeverReports(book: Book, ip: Ip, ts: seq<real>, c: Config)
    requires c.attempts >= 2 && c.window < 0.0 && Short(Entered(book, ip), 0.0)
    requires ts != [] ==> Rising(ts, ts[|ts| - 1])
    ensures Short(Entered(AfterLogins(book, ip, ts, c), ip), if ts == [] then 0.0 else ts[|ts| - 1])
    ensures ts != [] ==> LastOf(book, ip, ts, c) == None
  {
    if ts != [] {
      var front, now := ts[..|ts| - 1], ts[|ts| - 1];
      NegativeWindowNeverReports(book, ip, front, c);
      var clock := if front == [] then 0.0 else front[|front| - 1];
      assert clock <= now && 0.0 < now;
      hide Short, Noted, Completes, Rising;
      ShortStays(Entered(AfterLogins(book, ip, front, c), ip), clock, now, c);
    }
  }

  /** After a clean-up logins can lead to two reports that are too close exactly when it frees
      an address early, and the window lets logins be reported at all. */
  lemma FreedEarlyMeans(book: Book, ip: Ip, at: real, horizon: real, now: real, c: Config)
    requires Entered(book, ip) == Some(Reported(at)) && horizon > 0.0
    ensures ReportsTooSoon(CleanBook(book, now, c), ip, at, horizon, c)
       <==> FreedEarly(Entered(book, ip), horizon, now, c) && (c.attempts <= 1 || c.window >= 0.0)
  {
    var cleaned := CleanBook(book, now, c);
    EnteredAfterClean(book, now, c, ip);
    if ts :| TooSoon(cleaned, ip, at, horizon, ts, c) {
      if now <= at + c.rereport {
        StaysReported(cleaned, ip, at, ts, c);
      }
      if c.attempts >= 2 && c.window < 0.0 {
        NegativeWindowNeverReports(cleaned, ip, ts, c);
      }
    }
    if (c.attempts <= 1 || c.window >= 0.0) && FreedEarly(Entered(book, ip), horizon, now, c) {
      var ts := seq(Need(c), _ => horizon);
      LoginsLeadToReport(cleaned, ip, ts, c);
      assert TooSoon(cleaned, ip, at, horizon, ts, c);
    }
  }

  // ----- two sleeps at a time

  const SHORT := Config(2, 7200.0, REREPORT_MINIMUM)

  // The run up to the second answer with a Retry-After: both addresses have been reported.
  lemma TwoReports(a: Ip, b: Ip) returns (events: seq<Event>)
    requires a != b
    ensures Exec(Started(900.0), events, SHORT).Some?
    ensures
      var s := Exec(Started(900.0), events, SHORT).value;
      && Entered(s.book, a) == Some(Reported(1000.0)) && Entered(s.book, b) == Some(Reported(1002.0))
      && s.reports == [Report(a, 999.0, 1000.0), Report(b, 1001.0, 1002.0)]
      && !s.sleeping && s.recall && s.wakeups == [] && s.clock == 1002.0 && Calls(s)
      && forall ip :: ip != a && ip != b ==> Entered(s.book, ip) == None
  {
    events := [];
    var s := Started(900.0);
    s, events := LogIn(s, events, a, 999.0);
    s, events := LogIn(s, events, a, 1000.0);
    s, events := LogIn(s, events, b, 1001.0);
    s, events := LogIn(s, events, b, 1002.0);
  }

  lemma LogIn(s: State, events: seq<Event>, ip: Ip, now: real) returns (t: State, events': seq<Event>)
    requires Exec(Started(900.0), events, SHORT) == Some(s) && !s.sleeping && s.clock <= now
    ensures Exec(Started(900.0), events', SHORT) == Some(t) && t == Attempted(s, ip, now, SHORT)
    ensures events' == events + [Attempt(ip, now)]
    ensures Entered(t.book, ip) == Some(EntryAfter(Entered(s.book, ip), now, SHORT))
    ensures forall other :: other != ip ==> Entered(t.book, other) == Entered(s.book, other)
  {
    ExecAppend(Started(900.0), events, Attempt(ip, now), SHORT);
    t, events' := Attempted(s, ip, now, SHORT), events + [Attempt(ip, now)];
  }

  // An answer with a Retry-After; the book is cleaned unless a sleep before has cancelled the call.
  lemma FallenAsleep(s: State, now: real, retry: real)
    requires s.clock <= now && retry >= 0.0 && Calls(s)
    ensures
      var t := Next(s, RetryAfter(now, retry), SHORT);
      && Calls(t) && t.wakeups == s.wakeups + [now + retry] && t.clock == now && t.reports == s.reports
      && t.book == if s.recall then CleanBook(s.book, now + retry, SHORT) else s.book
  {
    hide CleanBook;
  }

  lemma Answered(s: State, events: seq<Event>, now: real, retry: real) returns (t: State, events': seq<Event>)
    requires Exec(Started(900.0), events, SHORT) == Some(s) && s.clock <= now && retry >= 0.0 && Calls(s)
    ensures Exec(Started(900.0), events', SHORT) == Some(t) && t == Next(s, RetryAfter(now, retry), SHORT)
    ensures events' == events + [RetryAfter(now, retry)] && Calls(t)
    ensures t.wakeups == s.wakeups + [now + retry] && t.clock == now && t.reports == s.reports
    ensures s.recall ==> forall ip :: Entered(t.book, ip) == CleanedEntry(Entered(s.book, ip), now + retry, SHORT)
    ensures !s.recall ==> t.book == s.book
  {
    var e := RetryAfter(now, retry);
    assert Enabled(s, e);
    hide *;
    t, events' := Next(s, e, SHORT), events + [e];
    FallenAsleep(s, now, retry);
    ExecAppend(Started(900.0), events, e, SHORT);
    forall ip
      ensures Entered(CleanBook(s.book, now + retry, SHORT), ip)
           == CleanedEntry(Entered(s.book, ip), now + retry, SHORT)
    {
      EnteredAfterClean(s.book, now + retry, SHORT, ip);
    }
  }

  // A wake-up, and two logins of an address that is not on the book.
  lemma Woken(s: State, before: seq<Event>, a: Ip, i: nat, now: real) returns (t: State, events: seq<Event>)
    requires Exec(Started(900.0), before, SHORT) == Some(s) && Entered(s.book, a) == None
    requires i < |s.wakeups| && s.wakeups[i] == now && 0.0 < s.clock <= now
    ensures Exec(Started(900.0), events, SHORT) == Some(t) && t.reports == s.reports + [Report(a, now, now + 1.0)]
    ensures events == before + [Wake(i, now), Attempt(a, now), Attempt(a, now + 1.0)]
    ensures t.wakeups == s.wakeups[..i] + s.wakeups[i + 1..] && !t.sleeping && t.recall && t.cleanups != []
    ensures t.clock == now + 1.0 && Entered(t.book, a) == Some(Reported(now + 1.0))
    ensures forall ip :: ip != a ==> Entered(t.book, ip) == Entered(s.book, ip)
  {
    hide Exec, CleanBook, Observed;
    ExecAppend(Started(900.0), before, Wake(i, now), SHORT);
    t, events := Next(s, Wake(i, now), SHORT), before + [Wake(i, now)];
    t, events := LogIn(t, events, a, now);
    t, events := LogIn(t, events, a, now + 1.0);
  }

  lemma {:induction false} NotReported(reports: seq<Report>, ip: Ip)
    requires forall r :: r in reports ==> r.ip != ip
    ensures LastReport(reports, ip) == None
  {
    if reports != [] {
      NotReported(reports[..|reports| - 1], ip);
    }
  }

  lemma {:induction false} DifferentSpaced(reports: seq<Report>, c: Config)
    requires forall i, j :: 0 <= i < j < |reports| ==> reports[i].ip != reports[j].ip
    ensures Spaced(reports, c)
  {
    if reports != [] {
      DifferentSpaced(reports[..|reports| - 1], c);
      NotReported(reports[..|reports| - 1], reports[|reports| - 1].ip);
    }
  }

  lemma {:induction false} FirstReport(reports: seq<Report>)
    requires reports != [] && forall i :: 0 < i < |reports| ==> reports[i].ip != reports[0].ip
    ensures LastReport(reports, reports[0].ip) == Some(reports[0].last)
  {
    if |reports| > 1 {
      FirstReport(reports[..|reports| - 1]);
    }
  }

  // A second report of the first address that comes too soon.
  lemma ReportedAgain(reports: seq<Report>, r: Report)
    requires reports != [] && forall i :: 0 < i < |reports| ==> reports[i].ip != reports[0].ip
    requires r.ip == reports[0].ip && r.last <= reports[0].last + REREPORT_MINIMUM
    ensures !Spaced(reports + [r], SHORT)
  {
    FirstReport(reports);
    assert (reports + [r])[..|reports + [r]| - 1] == reports;
  }

  // Two sleeps that overlap, and a report between their wake-up calls.
  lemma Crossed(a: Ip, b: Ip, d: Ip) returns (events: seq<Event>)
    requires a != b && b != d && d != a
    ensures Exec(Started(900.0), events, SHORT).Some?
    ensures
      var s := Exec(Started(900.0), events, SHORT).value;
      && s.wakeups == [1103.0] && s.clock == 1013.0 && !s.sleeping && s.recall && Calls(s)
      && Entered(s.book, a) == Some(Reported(1000.0)) && Entered(s.book, b) == Some(Reported(1002.0))
      && Entered(s.book, d) == Some(Reported(1013.0))
      && s.reports == [Report(a, 999.0, 1000.0), Report(b, 1001.0, 1002.0), Report(d, 1012.0, 1013.0)]
  {
    events := TwoReports(a, b);
    var s := Exec(Started(900.0), events, SHORT).value;
    hide Exec, CleanBook, Observed;
    s, events := Answered(s, events, 1002.0, 10.0);
    s, events := Answered(s, events, 1003.0, 100.0);
    s, events := Woken(s, events, d, 0, 1012.0);
  }

  lemma CrossedKeeps(s: State, a: Ip, b: Ip, d: Ip)
    requires a != b && b != d && d != a
    requires s.wakeups == [1103.0] && s.clock == 1013.0 && !s.sleeping && s.recall && Calls(s)
    requires Entered(s.book, a) == Some(Reported(1000.0)) && Entered(s.book, b) == Some(Reported(1002.0))
    requires Entered(s.book, d) == Some(Reported(1013.0))
    requires s.reports == [Report(a, 999.0, 1000.0), Report(b, 1001.0, 1002.0), Report(d, 1012.0, 1013.0)]
    ensures KeepsSpacing(s, SHORT) && AllQuiet(s, 1103.0, SHORT) && FreesEarly(s.book, 1103.0, 87354.0, SHORT)
    ensures Horizon(Next(s, RetryAfter(1014.0, 86340.0), SHORT)) == 1103.0
  {
    DifferentSpaced(s.reports, SHORT);
    forall ip
      ensures IpQuiet(s, 1013.0, SHORT, ip) && IpQuiet(s, 1103.0, SHORT, ip)
    {
      if ip != a && ip != b && ip != d {
        NotReported(s.reports, ip);
      }
    }
    assert FreedEarly(Entered(s.book, a), 1103.0, 87354.0, SHORT);
    LeastOfAppend(s.wakeups, 87354.0);
    hide LastReport, Spaced, CleanBook, AllQuiet;
  }

  lemma FourEvents(before: seq<Event>, a: Event, b: Event, c: Event, d: Event)
    ensures before + [a] + [b, c, d] == before + [a, b, c, d]
  {
  }

  lemma WokenAgain(s: State, before: seq<Event>, i: nat, until: real) returns (t: State)
    requires Exec(Started(900.0), before, SHORT) == Some(s) && 0.0 < s.clock <= until
    requires s.reports != [] && until + 1.0 <= s.reports[0].last + REREPORT_MINIMUM
    requires forall k :: 0 < k < |s.reports| ==> s.reports[k].ip != s.reports[0].ip
    requires i < |s.wakeups| && s.wakeups[i] == until && Entered(s.book, s.reports[0].ip) == None
    ensures
      var a := s.reports[0].ip;
      Exec(Started(900.0), before + [Wake(i, until), Attempt(a, until), Attempt(a, until + 1.0)], SHORT) == Some(t)
    ensures t.reports == s.reports + [Report(s.reports[0].ip, until, until + 1.0)] && !Spaced(t.reports, SHORT)
  {
    hide *;
    var events;
    t, events := Woken(s, before, s.reports[0].ip, i, until);
    ReportedAgain(s.reports, Report(s.reports[0].ip, until, until + 1.0));
  }

  /** The wake-up of an earlier sleep ends a later one: the clean-up of the later sleep frees
      the first address for the time of its own wake-up, and that address is reported again
      after 104 seconds. */
  lemma OverlappingSleepsBreakSpacing(a: Ip, b: Ip, d: Ip) returns (before: seq<Event>)
    requires a != b && b != d && d != a
    ensures Exec(Started(900.0), before, SHORT).Some?
    ensures
      var s, e := Exec(Started(900.0), before, SHORT).value, RetryAfter(1014.0, 86340.0);
      && KeepsSpacing(s, SHORT) && Enabled(s, e) && Horizon(Next(s, e, SHORT)) == 1103.0
      && AllQuiet(s, 1103.0, SHORT) && FreesEarly(s.book, 1103.0, 87354.0, SHORT)
    ensures
      var events := before + [RetryAfter(1014.0, 86340.0), Wake(0, 1103.0), Attempt(a, 1103.0), Attempt(a, 1104.0)];
      var t := Exec(Started(900.0), events, SHORT);
      && t.Some? && !Spaced(t.value.reports, SHORT)
      && t.value.reports == [Report(a, 999.0, 1000.0), Report(b, 1001.0, 1002.0), Report(d, 1012.0, 1013.0),
                             Report(a, 1103.0, 1104.0)]
  {
    before := Crossed(a, b, d);
    var s := Exec(Started(900.0), before, SHORT).value;
    CrossedKeeps(s, a, b, d);
    assert CleanedEntry(Some(Reported(1000.0)), 87354.0, SHORT) == None;
    hide *;
    var u, events := Answered(s, before, 1014.0, 86340.0);
    var _ := WokenAgain(u, events, 0, 1103.0);
    FourEvents(before, RetryAfter(1014.0, 86340.0), Wake(0, 1103.0), Attempt(a, 1103.0), Attempt(a, 1104.0));
  }

  // The first report is refused with a wait of a day.
  lemma LongSleep(a: Ip, b: Ip) returns (events: seq<Event>)
    requires a != b
    ensures Exec(Started(900.0), events, SHORT).Some?
    ensures
      var s := Exec(Started(900.0), events, SHORT).value;
      && s.wakeups == [87342.0] && s.clock == 1002.0 && s.sleeping && Entered(s.book, a) == None && Calls(s)
      && s.reports == [Report(a, 999.0, 1000.0), Report(b, 1001.0, 1002.0)]
  {
    events := TwoReports(a, b);
    var s := Exec(Started(900.0), events, SHORT).value;
    hide Exec, CleanBook;
    s, events := Answered(s, events, 1002.0, 86340.0);
  }

  // So far reports keep their distance, but not from the time 1013 on.
  lemma LongSleepKeeps(s: State, a: Ip, b: Ip)
    requires s.wakeups == [87342.0] && s.clock == 1002.0 && s.sleeping && Entered(s.book, a) == None && a != b
    requires Calls(s)
    requires s.reports == [Report(a, 999.0, 1000.0), Report(b, 1001.0, 1002.0)]
    ensures KeepsSpacing(s, SHORT) && !AllQuiet(s, 1013.0, SHORT)
    ensures Horizon(Next(s, RetryAfter(1003.0, 10.0), SHORT)) == 1013.0
  {
    DifferentSpaced(s.reports, SHORT);
    FirstReport(s.reports);
    forall ip
      ensures IpQuiet(s, 87342.0, SHORT, ip)
    {
      if ip != a && ip != b {
        NotReported(s.reports, ip);
      }
    }
    assert !IpQuiet(s, 1013.0, SHORT, a);
    LeastOfAppend(s.wakeups, 1013.0);
    hide LastReport, Spaced, CleanBook, AllQuiet;
  }

  /** A shorter sleep within a longer one: it cleans nothing, but the clean-up of the longer
      one has freed an address until a wake-up that the shorter one moves forward, and that
      address is reported again after 14 seconds. */
  lemma ShorterSleepBreaksSpacing(a: Ip, b: Ip) returns (before: seq<Event>)
    requires a != b
    ensures Exec(Started(900.0), before, SHORT).Some?
    ensures
      var s, e := Exec(Started(900.0), before, SHORT).value, RetryAfter(1003.0, 10.0);
      && KeepsSpacing(s, SHORT) && Enabled(s, e) && CleansAt(s, e) == None
      && Horizon(Next(s, e, SHORT)) == 1013.0 && !AllQuiet(s, 1013.0, SHORT)
    ensures
      var events := before + [RetryAfter(1003.0, 10.0), Wake(1, 1013.0), Attempt(a, 1013.0), Attempt(a, 1014.0)];
      var t := Exec(Started(900.0), events, SHORT);
      && t.Some? && !Spaced(t.value.reports, SHORT)
      && t.value.reports == [Report(a, 999.0, 1000.0), Report(b, 1001.0, 1002.0), Report(a, 1013.0, 1014.0)]
  {
    before := LongSleep(a, b);
    var s := Exec(Started(900.0), before, SHORT).value;
    LongSleepKeeps(s, a, b);
    assert Enabled(s, RetryAfter(1003.0, 10.0)) && CleansAt(s, RetryAfter(1003.0, 10.0)) == None && !s.recall;
    hide *;
    var u, events := Answered(s, before, 1003.0, 10.0);
    var _ := WokenAgain(u, events, 1, 1013.0);
    FourEvents(before, RetryAfter(1003.0, 10.0), Wake(1, 1013.0), Attempt(a, 1013.0), Attempt(a, 1014.0));
  }

  /** `LogBook` with the observers of the plugin and the sleep of the reporter. `wakeups` and
      `cleanups` hold the due times of the calls handed to the reactor, and `recall` tells
      whether the field of that name refers to the last clean-up of them; the ghost fields
      hold the logins looked at, the reports made and the clock of the last call. */
  class LogBook {
    const config: Config
    var entries: Book
    var sleeping: bool
    var sleepUntil: real
    var wakeups: seq<real>
    var cleanups: seq<real>
    var recall: bool
    ghost var log: seq<Login>
    ghost var reports: seq<Report>
    ghost var clock: real

    ghost function Current(): State
      reads this
    {
      State(entries, sleeping, sleepUntil, wakeups, cleanups, recall, log, reports, clock)
    }

    ghost predicate Valid()
      reads this
    {
      config.rereport >= REREPORT_MINIMUM && Sound(Current(), config)
    }

    constructor (attempts: int, windowMinutes: int, rereportHours: real, now: real)
      requires now > 0.0
      ensures Valid() && Current() == Started(now)
      ensures config.attempts == attempts && config.window == 60.0 * windowMinutes as real
      ensures config.rereport == if 3600.0 * rereportHours < 900.0 then 900.0 else 3600.0 * rereportHours
    {
      var rereport := 3600.0 * rereportHours;
      if rereport < REREPORT_MINIMUM {
        rereport := REREPORT_MINIMUM;
      }
      config := Config(attempts, 60.0 * windowMinutes as real, rereport);
      entries, sleeping, sleepUntil, wakeups := map[], false, 0.0, [];
      cleanups, recall := [now + CLEAN_DUMP_SCHED], true;
      log, reports, clock := [], [], now;
    }

    // `clean_expired_timestamps`
    method CleanExpiredTimestamps(ip: Ip, now: real)
      requires ip in entries
      modifies this`entries
      ensures entries == old(entries)[ip := Cleaned(old(entries)[ip], now, config)]
    {
      while entries[ip].Times? && entries[ip].ts != []
        invariant ip in entries && entries == old(entries)[ip := entries[ip]]
        invariant Cleaned(entries[ip], now, config) == Cleaned(old(entries)[ip], now, config)
        decreases if entries[ip].Times? then |entries[ip].ts| else 0
      {
        var ts := entries[ip].ts;
        if ts[0] == 0.0 {
          break;
        } else if ts[0] < now - config.window {
          entries := entries[ip := Times(ts[1..])];
        } else {
          break;
        }
      }
    }

    // The clean-up proper: one walk over the book that also collects what to delete.
    method CleanEntries(now: real)
      modifies this`entries
      ensures entries == CleanBook(old(entries), now, config)
    {
      var deleteMe: set<Ip> := {};
      var todo := entries.Keys;
      while todo != {}
        invariant entries.Keys == old(entries).Keys && todo <= entries.Keys
        invariant forall ip :: ip in todo ==> entries[ip] == old(entries)[ip]
        invariant forall ip :: ip in entries && ip !in todo ==> entries[ip] == Cleaned(old(entries)[ip], now, config)
        invariant forall ip :: ip in deleteMe <==>
          ip in entries && ip !in todo && CanRereport(old(entries)[ip], now, config)
        decreases todo
      {
        HasMember(todo);
        var ip :| ip in todo;
        if CanRereport(entries[ip], now, config) {
          deleteMe := deleteMe + {ip};
        }
        CleanExpiredTimestamps(ip, now);
        todo := todo - {ip};
      }
      entries := entries - deleteMe;
      entries := map ip | ip in entries && entries[ip] != Times([]) :: entries[ip];
    }

    // `write`: logins are not looked at during a sleep.
    method Write(ip: Ip, now: real) returns (report: Option<Report>)
      requires Valid() && clock <= now
      modifies this
      ensures Valid() && Current() == Next(old(Current()), Attempt(ip, now), config)
      ensures report == if sleeping then None else ReportOf(old(entries), ip, now, config)
    {
      hide Sound;
      NextSound(Current(), Attempt(ip, now), config);
      report := None;
      if !sleeping {
        if config.attempts <= 1 {
          report := IntolerantObserver(ip, now);
        } else {
          report := TolerantObserver(ip, now);
        }
        log := log + [Login(ip, now)];
        reports := reports + if report.Some? then [report.value] else [];
      }
      clock := now;
    }

    // With `report_ip_single`.
    method IntolerantObserver(ip: Ip, now: real) returns (report: Option<Report>)
      requires config.attempts <= 1
      modifies this`entries
      ensures entries == Observed(old(entries), ip, now, config)
      ensures report == ReportOf(old(entries), ip, now, config)
    {
      hide CanRereport;
      if ip in entries {
        if !CanRereport(entries[ip], now, config) {
          return None;
        }
      }
      entries := entries[ip := Reported(now)];
      report := Some(Report(ip, now, now));
    }

    // With `report_ip_multiple`.
    method TolerantObserver(ip: Ip, now: real) returns (report: Option<Report>)
      requires config.attempts >= 2
      modifies this`entries
      ensures entries == Observed(old(entries), ip, now, config)
      ensures report == ReportOf(old(entries), ip, now, config)
    {
      hide CanRereport, CleanExpired, AppendBounded;
      report := None;
      if ip !in entries || entries[ip] == Times([]) {
        entries := entries[ip := Times([now])];
      } else if entries[ip].Times? && entries[ip].ts[0] != 0.0 {
        var ts := CleanExpired(AppendBounded(entries[ip].ts, now, config.attempts), now, config);
        entries := entries[ip := Times(ts)];
        if |ts| >= config.attempts {
          var first, last := ts[0], ts[|ts| - 1];
          entries := entries[ip := Reported(last)];
          report := Some(Report(ip, first, last));
        }
      } else if CanRereport(entries[ip], now, config) {
        entries := entries[ip := Times([now])];
      }
    }

    // The call that a clean-up makes on itself, or that a wake-up makes.
    method Schedule(now: real)
      modifies this`cleanups, this`recall
      ensures Current() == Scheduled(old(Current()), now)
    {
      cleanups := cleanups + [now + CLEAN_DUMP_SCHED];
      recall := true;
    }

    // `cleanup_and_dump_state`; `last` for mode 1, and `raised` when the call to cancel was
    // cancelled before.
    method CleanupAndDumpState(last: bool, now: real) returns (raised: bool)
      requires recall ==> cleanups != []
      modifies this
      ensures Current() == CleanedUp(old(Current()), last, now, config)
      ensures raised == Raises(old(Current()), last)
    {
      hide CleanBook;
      raised := last && !recall;
      clock := now;
      if !raised {
        if last {
          cleanups, recall := cleanups[..|cleanups| - 1], false;
        }
        CleanEntries(if sleeping then sleepUntil else now);
        if !last && !sleeping {
          Schedule(now);
        }
      }
    }

    // A pending clean-up is made.
    method Recall(i: nat, now: real)
      requires Valid() && clock <= now && i < |cleanups| && cleanups[i] <= now
      modifies this
      ensures Valid() && Current() == Next(old(Current()), CleanUp(i, now), config)
    {
      NextSound(Current(), CleanUp(i, now), config);
      hide AllFounded, IpAgrees, CleanBook;
      recall := recall && i < |cleanups| - 1;
      cleanups := cleanups[..i] + cleanups[i + 1..];
      var _ := CleanupAndDumpState(false, now);
    }

    // The clean-up at the end of the run.
    method StopPlugin(now: real) returns (raised: bool)
      requires Valid() && clock <= now
      modifies this
      ensures Valid() && Current() == Next(old(Current()), Stop(now), config)
      ensures old(sleeping) ==> raised
    {
      NextSound(Current(), Stop(now), config);
      hide AllFounded, IpAgrees, CleanBook;
      raised := CleanupAndDumpState(true, now);
    }

    // The end of `rate_limit_handler`: sleep, and clean up with the time of the wake-up; during
    // a sleep that clean-up raises, and the entries stay.
    method FallAsleep(now: real, retry: real) returns (raised: bool)
      requires Valid() && clock <= now && retry >= 0.0
      modifies this
      ensures Valid() && Current() == Next(old(Current()), RetryAfter(now, retry), config)
      ensures old(sleeping) ==> raised && entries == old(entries)
    {
      NextSound(Current(), RetryAfter(now, retry), config);
      hide AllFounded, IpAgrees, CleanBook;
      sleeping := true;
      sleepUntil := now + retry;
      wakeups := wakeups + [sleepUntil];
      assert Current().(clock := old(clock)) == Asleep(old(Current()), now + retry);
      raised := CleanupAndDumpState(true, now);
    }

    // A pending wake-up call is made, that of an earlier sleep or of this one.
    method Wakeup(i: nat, now: real)
      requires Valid() && clock <= now && i < |wakeups| && wakeups[i] <= now
      modifies this
      ensures Valid() && Current() == Next(old(Current()), Wake(i, now), config)
    {
      hide Sound;
      NextSound(Current(), Wake(i, now), config);
      wakeups := wakeups[..i] + wakeups[i + 1..];
      sleeping, sleepUntil, clock := false, 0.0, now;
      Schedule(now);
    }
  }
}

/** The configuration and its validation. What the platform decides about a text (time zones,
    durations, addresses) is an input. */
module Config {
  import opened Sequences
  import opened Text
  import opened Wrappers

  datatype Platform = Platform(zone: string -> bool, duration: string -> Option<int>,
                               uri: string -> bool, url: string -> Option<Address>)

  /** What `url.Parse` tells about an address. */
  datatype Address = Address(hasUser: bool, path: string)

  const MINUTE: int := 60_000_000_000
  const DAY: int := 1440 * MINUTE

  datatype Global = Global(timezone: string, stateDB: string, tempDir: string, logDir: string,
                           maxParallelJobs: int, logRetentionDays: int, logMaxTotalMB: int)

  datatype WebDAV = WebDAV(remoteName: string, url: string, allowHTTP: bool)
  datatype SFTP = SFTP(host: string, username: string, path: string, keyFile: string)
  datatype S3 = S3(endpoint: string, bucket: string)

  datatype Storage = Storage(id: string, kind: string, repositoryPath: string, passwordFile: string,
                             webdav: Option<WebDAV>, sftp: Option<SFTP>, s3: Option<S3>)

  datatype Database = Database(id: string, kind: string, path: string, credentialFile: string)

  datatype Notification = Notification(id: string)

  datatype Schedule = Schedule(enabled: bool, kind: string, expression: string, randomizedDelay: string,
                               gracePeriod: string, timeout: string)

  datatype Retention = Retention(last: int, hourly: int, daily: int, weekly: int, monthly: int, yearly: int,
                                 within: string)

  datatype Job = Job(id: string, storageID: string, paths: seq<string>, databases: seq<string>,
                     notices: seq<seq<string>>, schedule: Schedule, readSubset: string,
                     backupMode: string, compression: string, retention: Retention)

  datatype Monitoring = Monitoring(enabled: bool, endpoint: string, nodeID: string, keyFile: string,
                                   keyVersion: int, heartbeatEnabled: bool, heartbeatInterval: string,
                                   requestTimeout: string, eventRetention: string)

  datatype Settings = Settings(version: int, global: Global, storages: seq<Storage>, databases: seq<Database>,
                               notifications: seq<Notification>, jobs: seq<Job>, monitoring: Monitoring)

  // ---------------------------------------------------------------- parts that mention no other

  predicate IsAbs(path: string) {
    path != "" && path[0] == '/'
  }

  function LowerChar(c: char): char {
    if 'A' <= c <= 'Z' then c - 'A' + 'a' else c
  }

  predicate HasPrefixFold(s: string, prefix: string) {
    |prefix| <= |s| && forall i :: 0 <= i < |prefix| ==> LowerChar(s[i]) == prefix[i]
  }

  predicate HasSuffix(s: string, suffix: string) {
    |suffix| <= |s| && s[|s| - |suffix|..] == suffix
  }

  predicate IDChar(c: char, first: bool) {
    'a' <= c <= 'z' || '0' <= c <= '9' || (!first && (c == '_' || c == '-'))
  }

  predicate ValidID(id: string) {
    1 <= |id| <= 64 && IDChar(id[0], true) && forall i :: 1 <= i < |id| ==> IDChar(id[i], false)
  }

  function Default(value: string, otherwise: string): string {
    if value == "" then otherwise else value
  }

  function WithDefaults(g: Global): Global {
    g.(stateDB := Default(g.stateDB, "/var/lib/sbackup/state.db"),
       tempDir := Default(g.tempDir, "/var/lib/sbackup/tmp"),
       logDir := Default(g.logDir, "/var/log/sbackup"), timezone := Default(g.timezone, "UTC"))
  }

  predicate GlobalOk(g: Global, p: Platform) {
    && p.zone(g.timezone) && IsAbs(g.stateDB) && IsAbs(g.tempDir) && IsAbs(g.logDir)
    && g.maxParallelJobs >= 1 && g.logRetentionDays >= 0 && g.logMaxTotalMB >= 0
  }

  predicate StorageOk(s: Storage, p: Platform) {
    && s.passwordFile != ""
    && match s.kind
       case "local" => s.repositoryPath != ""
       case "webdav" =>
         && s.webdav.Some? && s.webdav.value.remoteName != "" && s.webdav.value.url != ""
         && (HasPrefixFold(s.webdav.value.url, "http://") ==> s.webdav.value.allowHTTP) && p.uri(s.webdav.value.url)
       case "sftp" =>
         && s.sftp.Some? && s.sftp.value.host != "" && s.sftp.value.username != "" && s.sftp.value.path != ""
         && s.sftp.value.keyFile != ""
       case "s3" => s.s3.Some? && s.s3.value.endpoint != "" && s.s3.value.bucket != ""
       case _ => false
  }

  predicate DatabaseOk(d: Database) {
    match d.kind
    case "sqlite" => IsAbs(d.path)
    case "postgres" => d.credentialFile != ""
    case "mysql" => d.credentialFile != ""
    case _ => false
  }

  predicate Unset(value: string, p: Platform, least: int) {
    value == "" || Longer(value, p, least)
  }

  /** A duration of at least this many nanoseconds. */
  predicate Longer(value: string, p: Platform, least: int) {
    p.duration(value).Some? && p.duration(value).value >= least
  }

  predicate ScheduleOk(s: Schedule, p: Platform) {
    s.enabled ==>
      && s.expression != ""
      && match s.kind
         case "interval" => Longer(s.expression, p, MINUTE)
         case k => (k == "" || k == "calendar") && CalendarOk(s.expression)
  }

  /** Every expression between semicolons has something in it. */
  predicate CalendarOk(expression: string) {
    forall x :: x in Split(expression, ';') ==> TrimSpace(x) != ""
  }

  predicate ReadSubsetOk(value: string) {
    if HasSuffix(value, "%") then
      var n := Atoi(TrimSuffix(value, "%"));
      n.Some? && 1 <= n.value <= 100
    else
      var parts := Split(value, '/');
      && |parts| == 2 && Atoi(parts[0]).Some? && Atoi(parts[1]).Some?
      && 1 <= Atoi(parts[0]).value <= Atoi(parts[1]).value
  }

  predicate RetentionEmpty(r: Retention) {
    r.last + r.hourly + r.daily + r.weekly + r.monthly + r.yearly == 0 && r.within == ""
  }

  /** What a job must meet by itself. */
  predicate JobOk(j: Job, p: Platform) {
    && |j.paths| + |j.databases| > 0
    && Unset(j.schedule.timeout, p, 1) && ScheduleOk(j.schedule, p)
    && Unset(j.schedule.randomizedDelay, p, 0) && Unset(j.schedule.gracePeriod, p, 0)
    && (j.readSubset == "" || ReadSubsetOk(j.readSubset))
    && j.backupMode in {"", "incremental", "full"} && j.compression in {"", "auto", "off", "max"}
    && Distinct(j.paths) && Distinct(j.databases) && !RetentionEmpty(j.retention)
  }

  predicate MonitoringOk(m: Monitoring, p: Platform) {
    m.enabled ==>
      && m.endpoint != "" && m.nodeID != "" && m.keyFile != "" && HasPrefixFold(m.endpoint, "https://")
      && p.url(m.endpoint).Some? && !p.url(m.endpoint).value.hasUser
      && HasSuffix(p.url(m.endpoint).value.path, "/api/v1/report")
      && Unset(m.requestTimeout, p, 1) && (m.eventRetention == "" || ParseDuration(m.eventRetention, p).Some?)
      && m.keyVersion >= 1 && (m.heartbeatEnabled ==> Longer(m.heartbeatInterval, p, 1))
  }

  /** A share of the data to read: a percentage from 1 to 100. */
  lemma PercentIs(n: nat)
    requires n < 0x8000_0000_0000_0000
    ensures ReadSubsetOk(Decimal(n) + "%") <==> 1 <= n <= 100
  {
    DecimalIsRead(n);
    var text := Decimal(n) + "%";
    assert text[|text| - 1..] == "%" && text[..|text| - 1] == Decimal(n);
    assert HasSuffix(text, "%") && TrimSuffix(text, "%") == Decimal(n);
  }

  lemma PartsAre(a: string, b: string)
    requires '/' !in a && '/' !in b
    ensures Split(a + "/" + b, '/') == [a, b]
  {
    assert a + "/" + b == a + ['/'] + b;
    SplitConcat(a, b, '/');
    SplitWhole(a, '/');
    SplitWhole(b, '/');
  }

  lemma NoPercent(a: string, n: nat)
    ensures !HasSuffix(a + "/" + Decimal(n), "%")
  {
    var text, d := a + "/" + Decimal(n), Decimal(n);
    assert d[|d| - 1] in d && text[|text| - 1] == d[|d| - 1];
    assert text[|text| - 1..][0] == text[|text| - 1];
  }

  /** Or one part of a number of parts. */
  lemma FractionIs(a: nat, b: nat)
    requires a < 0x8000_0000_0000_0000 && b < 0x8000_0000_0000_0000
    ensures ReadSubsetOk(Decimal(a) + "/" + Decimal(b)) <==> 1 <= a <= b
  {
    DecimalIsRead(a);
    DecimalIsRead(b);
    PartsAre(Decimal(a), Decimal(b));
    NoPercent(Decimal(a), b);
  }

  lemma DecimalIsRead(n: nat)
    requires n < 0x8000_0000_0000_0000
    ensures Atoi(Decimal(n)) == Some(n) && '/' !in Decimal(n)
  {
    DecimalRoundTrip(n);
    DigitsByIndex(Decimal(n));
    assert Decimal(n)[0] in Decimal(n);
  }

  // ---------------------------------------------------------------- durations

  /** Multiplication of a Go `int64`. */
  function Wrapped(n: int): int {
    (n + 0x8000_0000_0000_0000) % 0x1_0000_0000_0000_0000 - 0x8000_0000_0000_0000
  }

  /** `ParseDuration`: whole days, or what Go parses. */
  function ParseDuration(value: string, p: Platform): Option<int> {
    if HasSuffix(value, "d") then
      var days := Atoi(TrimSuffix(value, "d"));
      if days.None? || days.value <= 0 then None else Some(Wrapped(days.value * DAY))
    else if p.duration(value).None? || p.duration(value).value <= 0 then None
    else p.duration(value)
  }

  lemma DaysParse(n: nat)
    ensures Atoi(Decimal(n)) == if n < 0x8000_0000_0000_0000 then Some(n) else None
    ensures HasSuffix(Decimal(n) + "d", "d") && TrimSuffix(Decimal(n) + "d", "d") == Decimal(n)
  {
    DecimalRoundTrip(n);
    DigitsByIndex(Decimal(n));
    assert Decimal(n)[0] in Decimal(n);
    assert (Decimal(n) + "d")[..|Decimal(n)|] == Decimal(n);
  }

  lemma DaysAreParsed(n: nat, p: Platform)
    requires n > 0
    ensures ParseDuration(Decimal(n) + "d", p) == if n < 0x8000_0000_0000_0000 then Some(Wrapped(n * DAY)) else None
  {
    DaysParse(n);
  }

  lemma WrapsExactly(x: nat)
    ensures Wrapped(x) == x <==> x < 0x8000_0000_0000_0000
  {
  }

  lemma DaysThatFit(n: nat)
    ensures n * DAY < 0x8000_0000_0000_0000 <==> n <= 106751
  {
    assert 106751 * DAY < 0x8000_0000_0000_0000 <= 106752 * DAY;
    if n <= 106751 {
      assert n * DAY <= 106751 * DAY;
    } else {
      assert n * DAY >= 106752 * DAY;
    }
  }

  lemma WrappedDays(n: nat, parsed: Option<int>)
    requires n > 0 && parsed == if n < 0x8000_0000_0000_0000 then Some(Wrapped(n * DAY)) else None
    ensures parsed == Some(n * DAY) <==> n <= 106751
    ensures n == 106752 ==> parsed == Some(n * DAY - 0x1_0000_0000_0000_0000)
  {
    DaysThatFit(n);
    WrapsExactly(n * DAY);
  }

  /** A number of whole days comes out as that many days exactly up to 106751 of them; beyond, the
      product wraps, and the first number too many is accepted and comes out negative. */
  lemma WholeDays(n: nat, p: Platform)
    requires n > 0
    ensures ParseDuration(Decimal(n) + "d", p) == Some(n * DAY) <==> n <= 106751
    ensures n == 106752 ==> ParseDuration(Decimal(n) + "d", p) == Some(n * DAY - 0x1_0000_0000_0000_0000)
  {
    DaysAreParsed(n, p);
    WrappedDays(n, ParseDuration(Decimal(n) + "d", p));
  }

  // ---------------------------------------------------------------- retention

  function Positive(n: int, flag: string): seq<string> {
    if n > 0 then [flag] else []
  }

  /** The keep options that `Forget` passes to restic. */
  function KeepOptions(r: Retention): seq<string> {
    Positive(r.last, "--keep-last") + Positive(r.hourly, "--keep-hourly") + Positive(r.daily, "--keep-daily")
    + Positive(r.weekly, "--keep-weekly") + Positive(r.monthly, "--keep-monthly") + Positive(r.yearly, "--keep-yearly")
    + if r.within != "" then ["--keep-within"] else []
  }

  predicate SomePositive(r: Retention) {
    r.last > 0 || r.hourly > 0 || r.daily > 0 || r.weekly > 0 || r.monthly > 0 || r.yearly > 0
  }

  predicate SomeNegative(r: Retention) {
    r.last < 0 || r.hourly < 0 || r.daily < 0 || r.weekly < 0 || r.monthly < 0 || r.yearly < 0
  }

  /** The check for an empty policy agrees with what restic is told whenever no count is negative;
      a policy it lets through may keep nothing only when some count is negative. */
  lemma RetentionCheck(r: Retention)
    ensures KeepOptions(r) == [] <==> !SomePositive(r) && r.within == ""
    ensures !SomeNegative(r) ==> (RetentionEmpty(r) <==> KeepOptions(r) == [])
    ensures !RetentionEmpty(r) && KeepOptions(r) == [] <==> !SomePositive(r) && SomeNegative(r) && r.within == ""
  {
  }

  /** One negative count is enough: the policy is let through and keeps nothing. */
  lemma NegativeCountGetsThrough()
    ensures var r := Retention(-1, 0, 0, 0, 0, 0, ""); !RetentionEmpty(r) && KeepOptions(r) == []
  {
    RetentionCheck(Retention(-1, 0, 0, 0, 0, 0, ""));
  }

  // ---------------------------------------------------------------- the whole

  function StorageIDs(xs: seq<Storage>): (ids: seq<string>)
    ensures |ids| == |xs|
  {
    seq(|xs|, i requires 0 <= i < |xs| => xs[i].id)
  }

  function DatabaseIDs(xs: seq<Database>): (ids: seq<string>)
    ensures |ids| == |xs|
  {
    seq(|xs|, i requires 0 <= i < |xs| => xs[i].id)
  }

  function NotificationIDs(xs: seq<Notification>): (ids: seq<string>)
    ensures |ids| == |xs|
  {
    seq(|xs|, i requires 0 <= i < |xs| => xs[i].id)
  }

  function JobIDs(xs: seq<Job>): (ids: seq<string>)
    ensures |ids| == |xs|
  {
    seq(|xs|, i requires 0 <= i < |xs| => xs[i].id)
  }

  function AllIDs(c: Settings): seq<string> {
    StorageIDs(c.storages) + DatabaseIDs(c.databases) + NotificationIDs(c.notifications) + JobIDs(c.jobs)
  }

  predicate WellFormed(ids: seq<string>, i: int)
    requires 0 <= i < |ids|
  {
    ValidID(ids[i])
  }

  predicate AllValid(ids: seq<string>) {
    forall i :: 0 <= i < |ids| ==> WellFormed(ids, i)
  }

  /** Everything a job refers to exists. */
  predicate Refers(j: Job, storages: seq<string>, databases: seq<string>, notifications: seq<string>) {
    && j.storageID in storages
    && (forall i :: 0 <= i < |j.databases| ==> j.databases[i] in databases)
    && (forall g :: 0 <= g < |j.notices| ==> AllIn(j.notices[g], notifications))
  }

  predicate AllIn(ids: seq<string>, known: seq<string>) {
    forall i :: 0 <= i < |ids| ==> ids[i] in known
  }

  predicate JobStands(j: Job, c: Settings, p: Platform) {
    JobOk(j, p) && Refers(j, StorageIDs(c.storages), DatabaseIDs(c.databases), NotificationIDs(c.notifications))
  }

  predicate JobAt(c: Settings, i: int, p: Platform)
    requires 0 <= i < |c.jobs|
  {
    JobStands(c.jobs[i], c, p)
  }

  predicate StorageAt(xs: seq<Storage>, i: int, p: Platform)
    requires 0 <= i < |xs|
  {
    StorageOk(xs[i], p)
  }

  predicate DatabaseAt(xs: seq<Database>, i: int)
    requires 0 <= i < |xs|
  {
    DatabaseOk(xs[i])
  }

  /** The four lists: identifiers, references and each entry by itself. */
  predicate Lists(c: Settings, p: Platform) {
    && AllValid(AllIDs(c)) && Distinct(AllIDs(c))
    && (forall i :: 0 <= i < |c.storages| ==> StorageAt(c.storages, i, p))
    && (forall i :: 0 <= i < |c.databases| ==> DatabaseAt(c.databases, i))
    && (forall i :: 0 <= i < |c.jobs| ==> JobAt(c, i, p))
  }

  /** A configuration that passes: identifiers are well formed and unique across the four kinds, every
      reference has its entry, and every part is right by itself. */
  predicate Valid(c: Settings, p: Platform) {
    && c.version == 1 && GlobalOk(c.global, p) && MonitoringOk(c.monitoring, p)
    && Lists(c, p)
  }

  // ---------------------------------------------------------------- the loops

  /** Identifiers that may follow those already seen. */
  predicate Fresh(seen: set<string>, ids: seq<string>) {
    AllValid(ids) && Distinct(ids) && forall i :: 0 <= i < |ids| ==> Unseen(seen, ids, i)
  }

  predicate Unseen(seen: set<string>, ids: seq<string>, i: int)
    requires 0 <= i < |ids|
  {
    ids[i] !in seen
  }

  lemma MembersConcat(a: seq<string>, b: seq<string>)
    ensures Members(a + b) == Members(a) + Members(b)
  {
  }

  lemma FreshParts(seen: set<string>, a: seq<string>, b: seq<string>)
    requires Fresh(seen, a + b)
    ensures Fresh(seen, a) && Fresh(seen + Members(a), b)
  {
    var ab := a + b;
    forall i | 0 <= i < |a| ensures WellFormed(a, i) && Unseen(seen, a, i) {
      assert ab[i] == a[i] && WellFormed(ab, i) && Unseen(seen, ab, i);
    }
    forall i, j | 0 <= i < j < |a| ensures Differ(a, i, j) {
      assert Differ(ab, i, j);
    }
    forall i | 0 <= i < |b| ensures WellFormed(b, i) && Unseen(seen + Members(a), b, i) {
      assert ab[|a| + i] == b[i] && WellFormed(ab, |a| + i) && Unseen(seen, ab, |a| + i);
      forall k | 0 <= k < |a| ensures a[k] != b[i] {
        assert Differ(ab, k, |a| + i);
      }
    }
    forall i, j | 0 <= i < j < |b| ensures Differ(b, i, j) {
      assert Differ(ab, |a| + i, |a| + j);
    }
  }

  lemma FreshWhole(seen: set<string>, a: seq<string>, b: seq<string>)
    requires Fresh(seen, a) && Fresh(seen + Members(a), b)
    ensures Fresh(seen, a + b)
  {
    var ab := a + b;
    forall i | 0 <= i < |ab| ensures WellFormed(ab, i) && Unseen(seen, ab, i) {
      if i < |a| {
        assert WellFormed(a, i) && Unseen(seen, a, i);
      } else {
        assert WellFormed(b, i - |a|) && Unseen(seen + Members(a), b, i - |a|);
      }
    }
    forall i, j | 0 <= i < j < |ab| ensures Differ(ab, i, j) {
      if j < |a| {
        assert Differ(a, i, j);
      } else if i < |a| {
        assert Unseen(seen + Members(a), b, j - |a|) && a[i] in Members(a);
      } else {
        assert Differ(b, i - |a|, j - |a|);
      }
    }
  }

  lemma FreshConcat(seen: set<string>, a: seq<string>, b: seq<string>)
    ensures Fresh(seen, a) && Fresh(seen + Members(a), b) <==> Fresh(seen, a + b)
  {
    if Fresh(seen, a + b) {
      FreshParts(seen, a, b);
    } else if Fresh(seen, a) && Fresh(seen + Members(a), b) {
      FreshWhole(seen, a, b);
    }
  }

  lemma OneFresh(seen: set<string>, id: string)
    ensures Fresh(seen, [id]) <==> ValidID(id) && id !in seen
    ensures Members([id]) == {id}
  {
    assert [id][0] == id;
    assert WellFormed([id], 0) <==> ValidID(id);
    assert Unseen(seen, [id], 0) <==> id !in seen;
  }

  /** `validateID`. */
  method ValidateID(id: string, seen: set<string>) returns (ok: bool, more: set<string>)
    ensures ok <==> Fresh(seen, [id])
    ensures more == if ok then seen + {id} else seen
  {
    OneFresh(seen, id);
    if !ValidID(id) || id in seen { return false, seen; }
    return true, seen + {id};
  }

  method HasDuplicates(values: seq<string>) returns (found: bool)
    ensures found <==> !Distinct(values)
  {
    var seen := {};
    for i := 0 to |values|
      invariant seen == Members(values[..i]) && forall k, m :: 0 <= k < m < i ==> Differ(values, k, m)
    {
      if values[i] in seen {
        var k :| 0 <= k < i && values[..i][k] == values[i];
        assert !Differ(values, k, i);
        return true;
      }
      forall k | 0 <= k < i ensures Differ(values, k, i) {
        assert values[..i][k] in seen;
      }
      seen := seen + {values[i]};
      assert values[..i + 1] == values[..i] + [values[i]];
      MembersConcat(values[..i], [values[i]]);
      OneFresh({}, values[i]);
    }
    return false;
  }

  /** One more element of a list whose identifiers are being collected. */
  lemma FreshNext(seen: set<string>, ids: seq<string>, i: nat)
    requires i < |ids| && Fresh(seen, ids[..i])
    ensures Fresh(seen, ids[..i + 1]) <==> Fresh(seen + Members(ids[..i]), [ids[i]])
    ensures seen + Members(ids[..i]) + Members([ids[i]]) == seen + Members(ids[..i + 1])
    ensures Fresh(seen, ids) ==> Fresh(seen, ids[..i + 1])
  {
    assert ids[..i + 1] == ids[..i] + [ids[i]];
    FreshConcat(seen, ids[..i], [ids[i]]);
    MembersConcat(ids[..i], [ids[i]]);
    if Fresh(seen, ids) {
      assert ids == ids[..i + 1] + ids[i + 1..];
      FreshParts(seen, ids[..i + 1], ids[i + 1..]);
    }
  }

  /** What the loops over the four lists share: the next identifier passes exactly when the list up
      to it does, and noting it notes the longer list. */
  lemma NextID(seen: set<string>, more: set<string>, all: seq<string>, i: nat)
    requires i < |all| && Fresh(seen, all[..i]) && more == seen + Members(all[..i])
    ensures Fresh(more, [all[i]]) <==> Fresh(seen, all[..i + 1])
    ensures more + {all[i]} == seen + Members(all[..i + 1]) && Members(all[..i + 1]) == Members(all[..i]) + {all[i]}
    ensures Fresh(seen, all) ==> Fresh(seen, all[..i + 1])
  {
    FreshNext(seen, all, i);
    MembersConcat(all[..i], [all[i]]);
    OneFresh(seen, all[i]);
    assert all[..i + 1] == all[..i] + [all[i]];
  }

  method CheckStorage(s: Storage, p: Platform) returns (ok: bool)
    ensures ok <==> StorageOk(s, p)
  {
    if s.passwordFile == "" { return false; }
    match s.kind {
      case "local" => return s.repositoryPath != "";
      case "webdav" =>
        if s.webdav.None? || s.webdav.value.remoteName == "" || s.webdav.value.url == "" { return false; }
        if HasPrefixFold(s.webdav.value.url, "http://") && !s.webdav.value.allowHTTP { return false; }
        return p.uri(s.webdav.value.url);
      case "sftp" =>
        return s.sftp.Some? && s.sftp.value.host != "" && s.sftp.value.username != "" && s.sftp.value.path != ""
               && s.sftp.value.keyFile != "";
      case "s3" => return s.s3.Some? && s.s3.value.endpoint != "" && s.s3.value.bucket != "";
      case _ => return false;
    }
  }

  /** One turn of the loop over the storages. */
  method NextStorage(i: nat, p: Platform, xs: seq<Storage>, ghost seen: set<string>, before: set<string>)
    returns (ok: bool, more: set<string>)
    requires i < |xs| && Fresh(seen, StorageIDs(xs)[..i]) && before == seen + Members(StorageIDs(xs)[..i])
    ensures ok ==> Fresh(seen, StorageIDs(xs)[..i + 1]) && StorageAt(xs, i, p)
    ensures ok ==> more == seen + Members(StorageIDs(xs)[..i + 1])
    ensures !ok ==> !Fresh(seen, StorageIDs(xs)) || !StorageAt(xs, i, p)
    ensures Members(StorageIDs(xs)[..i + 1]) == Members(StorageIDs(xs)[..i]) + {xs[i].id}
  {
    NextID(seen, before, StorageIDs(xs), i);
    ok, more := ValidateID(xs[i].id, before);
    if !ok { return; }
    ok := CheckStorage(xs[i], p);
  }

  method CheckStorages(xs: seq<Storage>, p: Platform, seen: set<string>)
    returns (ok: bool, ids: set<string>, more: set<string>)
    ensures ok <==> Fresh(seen, StorageIDs(xs)) && forall i :: 0 <= i < |xs| ==> StorageAt(xs, i, p)
    ensures ok ==> ids == Members(StorageIDs(xs)) && more == seen + Members(StorageIDs(xs))
  {
    ids, more := {}, seen;
    for i := 0 to |xs|
      invariant Fresh(seen, StorageIDs(xs)[..i]) && (forall k :: 0 <= k < i ==> StorageAt(xs, k, p))
      invariant ids == Members(StorageIDs(xs)[..i]) && more == seen + Members(StorageIDs(xs)[..i])
    {
      ok, more := NextStorage(i, p, xs, seen, more);
      if !ok { return; }
      ids := ids + {xs[i].id};
    }
    assert StorageIDs(xs)[..|xs|] == StorageIDs(xs);
    ok := true;
  }

  method CheckDatabases(xs: seq<Database>, seen: set<string>)
    returns (ok: bool, ids: set<string>, more: set<string>)
    ensures ok <==> Fresh(seen, DatabaseIDs(xs)) && forall i :: 0 <= i < |xs| ==> DatabaseAt(xs, i)
    ensures ok ==> ids == Members(DatabaseIDs(xs)) && more == seen + Members(DatabaseIDs(xs))
  {
    ghost var all := DatabaseIDs(xs);
    ids, more := {}, seen;
    for i := 0 to |xs|
      invariant Fresh(seen, all[..i]) && (forall k :: 0 <= k < i ==> DatabaseAt(xs, k))
      invariant ids == Members(all[..i]) && more == seen + Members(all[..i])
    {
      var d := xs[i];
      NextID(seen, more, all, i);
      ok, more := ValidateID(d.id, more);
      if !ok { return; }
      ids := ids + {d.id};
      ok := (d.kind == "postgres" || d.kind == "mysql" || d.kind == "sqlite")
            && !(d.kind == "sqlite" && (d.path == "" || !IsAbs(d.path)))
            && !(d.kind != "sqlite" && d.credentialFile == "");
      assert ok <==> DatabaseAt(xs, i);
      if !ok { return; }
    }
    assert all[..|xs|] == all;
    ok := true;
  }

  method CheckNotifications(xs: seq<Notification>, seen: set<string>)
    returns (ok: bool, ids: set<string>, more: set<string>)
    ensures ok <==> Fresh(seen, NotificationIDs(xs))
    ensures ok ==> ids == Members(NotificationIDs(xs)) && more == seen + Members(NotificationIDs(xs))
  {
    ghost var all := NotificationIDs(xs);
    ids, more := {}, seen;
    for i := 0 to |xs|
      invariant Fresh(seen, all[..i])
      invariant ids == Members(all[..i]) && more == seen + Members(all[..i])
    {
      NextID(seen, more, all, i);
      ok, more := ValidateID(xs[i].id, more);
      if !ok { return; }
      ids := ids + {xs[i].id};
    }
    assert all[..|xs|] == all;
    ok := true;
  }

  method AllKnown(ids: seq<string>, known: set<string>, ghost list: seq<string>) returns (ok: bool)
    requires known == Members(list)
    ensures ok <==> AllIn(ids, list)
  {
    for i := 0 to |ids|
      invariant forall k :: 0 <= k < i ==> ids[k] in list
    {
      if ids[i] !in known { return false; }
    }
    return true;
  }

  method CheckCalendar(expression: string) returns (ok: bool)
    ensures ok <==> CalendarOk(expression)
  {
    var parts := Split(expression, ';');
    for i := 0 to |parts|
      invariant forall k :: 0 <= k < i ==> TrimSpace(parts[k]) != ""
    {
      if TrimSpace(parts[i]) == "" {
        assert parts[i] in parts;
        return false;
      }
    }
    return true;
  }

  method CheckSchedule(s: Schedule, p: Platform) returns (ok: bool)
    ensures ok <==> ScheduleOk(s, p)
  {
    if !s.enabled { return true; }
    if s.expression == "" { return false; }
    var kind := s.kind;
    if kind == "" { kind := "calendar"; }
    match kind {
      case "calendar" => ok := CheckCalendar(s.expression);
      case "interval" => return p.duration(s.expression).Some? && p.duration(s.expression).value >= MINUTE;
      case _ => return false;
    }
  }

  /** The identifiers collected from the first three lists. */
  predicate Known(c: Settings, storages: set<string>, databases: set<string>, notifications: set<string>) {
    && storages == Members(StorageIDs(c.storages)) && databases == Members(DatabaseIDs(c.databases))
    && notifications == Members(NotificationIDs(c.notifications))
  }

  /** The body of the loop over the jobs, after the identifier. */
  method CheckJob(j: Job, p: Platform, storages: set<string>, databases: set<string>, notifications: set<string>,
                  ghost c: Settings)
    returns (ok: bool)
    requires Known(c, storages, databases, notifications)
    ensures ok <==> JobStands(j, c, p)
  {
    if j.storageID !in storages { return false; }
    if |j.paths| + |j.databases| == 0 { return false; }
    ok := AllKnown(j.databases, databases, DatabaseIDs(c.databases));
    if !ok { return; }
    for g := 0 to |j.notices|
      invariant forall k :: 0 <= k < g ==> AllIn(j.notices[k], NotificationIDs(c.notifications))
    {
      ok := AllKnown(j.notices[g], notifications, NotificationIDs(c.notifications));
      if !ok { return; }
    }
    ok := CheckOptions(j, p);
  }

  method CheckOptions(j: Job, p: Platform) returns (ok: bool)
    requires |j.paths| + |j.databases| > 0
    ensures ok <==> JobOk(j, p)
  {
    if j.schedule.timeout != "" && !Longer(j.schedule.timeout, p, 1) { return false; }
    ok := CheckSchedule(j.schedule, p);
    if !ok { return; }
    if j.schedule.randomizedDelay != "" && !Longer(j.schedule.randomizedDelay, p, 0) { return false; }
    if j.readSubset != "" && !ReadSubsetOk(j.readSubset) { return false; }
    if j.schedule.gracePeriod != "" && !Longer(j.schedule.gracePeriod, p, 0) { return false; }
    if j.backupMode != "" && j.backupMode != "incremental" && j.backupMode != "full" { return false; }
    if j.compression != "" && j.compression != "auto" && j.compression != "off"
       && j.compression != "max" { return false; }
    var twice := HasDuplicates(j.paths);
    if twice { return false; }
    twice := HasDuplicates(j.databases);
    if twice { return false; }
    return !RetentionEmpty(j.retention);
  }

  /** The first `i` identifiers were new, and are now among those seen. */
  ghost predicate SeenUpTo(seen: set<string>, ids: seq<string>, i: int, more: set<string>) {
    0 <= i <= |ids| && Fresh(seen, ids[..i]) && more == seen + Members(ids[..i])
  }

  lemma NoneSeen(seen: set<string>, ids: seq<string>)
    ensures SeenUpTo(seen, ids, 0, seen)
  {
  }

  lemma AllSeen(seen: set<string>, ids: seq<string>, more: set<string>)
    requires SeenUpTo(seen, ids, |ids|, more)
    ensures Fresh(seen, ids)
  {
    assert ids[..|ids|] == ids;
  }

  /** The jobs as a whole, given the identifiers seen before them. */
  ghost predicate JobsStand(c: Settings, p: Platform, seen: set<string>) {
    Fresh(seen, JobIDs(c.jobs)) && forall i :: 0 <= i < |c.jobs| ==> JobAt(c, i, p)
  }

  /** The first `i` jobs stand, and their identifiers are now among those seen. */
  ghost predicate JobsUpTo(c: Settings, p: Platform, seen: set<string>, i: int, more: set<string>) {
    SeenUpTo(seen, JobIDs(c.jobs), i, more) && forall k :: 0 <= k < i ==> JobAt(c, k, p)
  }

  lemma NoJobs(c: Settings, p: Platform, seen: set<string>)
    ensures JobsUpTo(c, p, seen, 0, seen)
  {
    NoneSeen(seen, JobIDs(c.jobs));
  }

  lemma AllJobs(c: Settings, p: Platform, seen: set<string>, more: set<string>)
    requires JobsUpTo(c, p, seen, |c.jobs|, more)
    ensures JobsStand(c, p, seen)
  {
    AllSeen(seen, JobIDs(c.jobs), more);
  }

  /** One turn of the loop over the jobs. */
  method NextJob(i: nat, p: Platform, storages: set<string>, databases: set<string>, notifications: set<string>,
                 c: Settings, ghost seen: set<string>, before: set<string>)
    returns (ok: bool, more: set<string>)
    requires Known(c, storages, databases, notifications) && i < |c.jobs|
    requires JobsUpTo(c, p, seen, i, before)
    ensures ok ==> JobsUpTo(c, p, seen, i + 1, more)
    ensures !ok ==> !JobsStand(c, p, seen)
  {
    NextID(seen, before, JobIDs(c.jobs), i);
    ok, more := ValidateID(c.jobs[i].id, before);
    if !ok { return; }
    ok := CheckJob(c.jobs[i], p, storages, databases, notifications, c);
    assert JobAt(c, i, p) <==> ok;
  }

  method CheckJobs(p: Platform, storages: set<string>, databases: set<string>, notifications: set<string>,
                   c: Settings, seen: set<string>)
    returns (ok: bool)
    requires Known(c, storages, databases, notifications)
    ensures ok <==> JobsStand(c, p, seen)
  {
    var more := seen;
    NoJobs(c, p, seen);
    for i := 0 to |c.jobs|
      invariant JobsUpTo(c, p, seen, i, more)
    {
      ok, more := NextJob(i, p, storages, databases, notifications, c, seen, more);
      if !ok { return; }
    }
    AllJobs(c, p, seen, more);
    ok := true;
  }

  method CheckMonitoring(m: Monitoring, p: Platform) returns (ok: bool)
    ensures ok <==> MonitoringOk(m, p)
  {
    if !m.enabled { return true; }
    if m.endpoint == "" || m.nodeID == "" || m.keyFile == "" { return false; }
    if !HasPrefixFold(m.endpoint, "https://") { return false; }
    var u := p.url(m.endpoint);
    if u.None? || u.value.hasUser { return false; }
    if !HasSuffix(u.value.path, "/api/v1/report") { return false; }
    if m.requestTimeout != "" && !Longer(m.requestTimeout, p, 1) { return false; }
    if m.eventRetention != "" && ParseDuration(m.eventRetention, p).None? { return false; }
    if m.keyVersion < 1 { return false; }
    return !(m.heartbeatEnabled && !Longer(m.heartbeatInterval, p, 1));
  }

  lemma FourLists(c: Settings)
    ensures var s, d, n, j := StorageIDs(c.storages), DatabaseIDs(c.databases),
                               NotificationIDs(c.notifications), JobIDs(c.jobs);
      Fresh({}, s) && Fresh(Members(s), d) && Fresh(Members(s) + Members(d), n)
      && Fresh(Members(s) + Members(d) + Members(n), j)
      <==> AllValid(AllIDs(c)) && Distinct(AllIDs(c))
  {
    var s, d, n, j := StorageIDs(c.storages), DatabaseIDs(c.databases),
                      NotificationIDs(c.notifications), JobIDs(c.jobs);
    assert {} + Members(s) == Members(s);
    FreshConcat({}, s, d);
    MembersConcat(s, d);
    assert {} + Members(s + d) == Members(s) + Members(d);
    FreshConcat({}, s + d, n);
    MembersConcat(s + d, n);
    assert {} + Members(s + d + n) == Members(s) + Members(d) + Members(n);
    FreshConcat({}, s + d + n, j);
  }

  class Configuration {
    var version: int
    var global: Global
    var storages: seq<Storage>
    var databases: seq<Database>
    var notifications: seq<Notification>
    var jobs: seq<Job>
    var monitoring: Monitoring

    constructor (c: Settings)
      ensures Value() == c
    {
      version, global, monitoring := c.version, c.global, c.monitoring;
      storages, databases, notifications, jobs := c.storages, c.databases, c.notifications, c.jobs;
    }

    function Value(): Settings
      reads this
    {
      Settings(version, global, storages, databases, notifications, jobs, monitoring)
    }

    method CheckLists(p: Platform) returns (ok: bool)
      ensures ok <==> Lists(Value(), p)
    {
      ghost var c := Value();
      FourLists(c);
      var storageIDs, databaseIDs, notificationIDs;
      var seen := {};
      ok, storageIDs, seen := CheckStorages(storages, p, seen);
      if !ok { return; }
      assert seen == storageIDs;
      ok, databaseIDs, seen := CheckDatabases(databases, seen);
      if !ok { return; }
      ok, notificationIDs, seen := CheckNotifications(notifications, seen);
      if !ok { return; }
      ok := CheckJobs(p, storageIDs, databaseIDs, notificationIDs, Value(), seen);
    }

    method FillDefaults()
      modifies `global
      ensures global == WithDefaults(old(global))
    {
      if global.stateDB == "" { global := global.(stateDB := "/var/lib/sbackup/state.db"); }
      if global.tempDir == "" { global := global.(tempDir := "/var/lib/sbackup/tmp"); }
      if global.logDir == "" { global := global.(logDir := "/var/log/sbackup"); }
      if global.timezone == "" { global := global.(timezone := "UTC"); }
    }

    /** `Validate` fills the defaults in place, and passes exactly when the configuration is valid. */
    method Validate(p: Platform) returns (ok: bool)
      modifies `global
      ensures Value() == old(Value()).(global := if version == 1 then WithDefaults(old(global)) else old(global))
      ensures ok <==> Valid(Value(), p)
      ensures version == 1 ==>
        && global.stateDB == (if old(global).stateDB == "" then "/var/lib/sbackup/state.db" else old(global).stateDB)
        && global.tempDir == (if old(global).tempDir == "" then "/var/lib/sbackup/tmp" else old(global).tempDir)
        && global.logDir == (if old(global).logDir == "" then "/var/log/sbackup" else old(global).logDir)
        && global.timezone == (if old(global).timezone == "" then "UTC" else old(global).timezone)
    {
      if version != 1 { return false; }
      FillDefaults();
      if !p.zone(global.timezone) { return false; }
      if !IsAbs(global.stateDB) || !IsAbs(global.tempDir) || !IsAbs(global.logDir) { return false; }
      if global.maxParallelJobs < 1 || global.logRetentionDays < 0 || global.logMaxTotalMB < 0 { return false; }
      ok := CheckLists(p);
      if !ok { return; }
      ok := CheckMonitoring(monitoring, p);
    }

    /** The lookups return the first entry with the identifier. */
    method Job(id: string) returns (found: Option<Job>)
      ensures found == Lookup(JobIDs(jobs), jobs, id)
    {
      for i := 0 to |jobs|
        invariant forall k :: 0 <= k < i ==> JobIDs(jobs)[k] != id
      {
        if jobs[i].id == id { FirstIs(JobIDs(jobs), jobs, id, i); return Some(jobs[i]); }
      }
      NoneIs(JobIDs(jobs), jobs, id);
      return None;
    }

    method Storage(id: string) returns (found: Option<Storage>)
      ensures found == Lookup(StorageIDs(storages), storages, id)
    {
      for i := 0 to |storages|
        invariant forall k :: 0 <= k < i ==> StorageIDs(storages)[k] != id
      {
        if storages[i].id == id { FirstIs(StorageIDs(storages), storages, id, i); return Some(storages[i]); }
      }
      NoneIs(StorageIDs(storages), storages, id);
      return None;
    }

    method Database(id: string) returns (found: Option<Database>)
      ensures found == Lookup(DatabaseIDs(databases), databases, id)
    {
      for i := 0 to |databases|
        invariant forall k :: 0 <= k < i ==> DatabaseIDs(databases)[k] != id
      {
        if databases[i].id == id { FirstIs(DatabaseIDs(databases), databases, id, i); return Some(databases[i]); }
      }
      NoneIs(DatabaseIDs(databases), databases, id);
      return None;
    }

    method Notification(id: string) returns (found: Option<Notification>)
      ensures found == Lookup(NotificationIDs(notifications), notifications, id)
    {
      for i := 0 to |notifications|
        invariant forall k :: 0 <= k < i ==> NotificationIDs(notifications)[k] != id
      {
        if notifications[i].id == id {
          FirstIs(NotificationIDs(notifications), notifications, id, i);
          return Some(notifications[i]);
        }
      }
      NoneIs(NotificationIDs(notifications), notifications, id);
      return None;
    }
  }

  /** The first entry whose identifier is `id`. */
  function Lookup<T>(ids: seq<string>, entries: seq<T>, id: string): Option<T>
    requires |ids| == |entries|
  {
    if ids == [] then None else if ids[0] == id then Some(entries[0]) else Lookup(ids[1..], entries[1..], id)
  }

  lemma {:induction false} FirstIs<T>(ids: seq<string>, entries: seq<T>, id: string, i: nat)
    requires |ids| == |entries| && i < |ids| && ids[i] == id && forall k :: 0 <= k < i ==> ids[k] != id
    ensures Lookup(ids, entries, id) == Some(entries[i])
  {
    if i > 0 { FirstIs(ids[1..], entries[1..], id, i - 1); }
  }

  lemma {:induction false} NoneIs<T>(ids: seq<string>, entries: seq<T>, id: string)
    requires |ids| == |entries| && forall k :: 0 <= k < |ids| ==> ids[k] != id
    ensures Lookup(ids, entries, id) == None
  {
    if ids != [] { NoneIs(ids[1..], entries[1..], id); }
  }

  // ---------------------------------------------------------------- what a valid configuration promises

  lemma UniqueLookup<T>(ids: seq<string>, entries: seq<T>, id: string)
    requires |ids| == |entries| && Distinct(ids) && id in ids
    ensures exists i :: 0 <= i < |ids| && ids[i] == id && Lookup(ids, entries, id) == Some(entries[i])
  {
    var i :| 0 <= i < |ids| && ids[i] == id;
    forall k | 0 <= k < i ensures ids[k] != id { assert Differ(ids, k, i); }
    FirstIs(ids, entries, id, i);
  }

  lemma EachListIsDistinct(c: Settings, p: Platform)
    requires Valid(c, p)
    ensures Distinct(StorageIDs(c.storages)) && Distinct(DatabaseIDs(c.databases))
    ensures Distinct(NotificationIDs(c.notifications)) && Distinct(JobIDs(c.jobs))
  {
    FourLists(c);
  }

  /** The entry that a lookup finds has the identifier, and is the only one that has. */
  predicate Resolves<T(==)>(ids: seq<string>, entries: seq<T>, id: string)
    requires |ids| == |entries|
  {
    && (exists i :: 0 <= i < |ids| && ids[i] == id && Lookup(ids, entries, id) == Some(entries[i]))
    && (forall i, k :: 0 <= i < |ids| && 0 <= k < |ids| && ids[i] == id && ids[k] == id ==> i == k)
  }

  lemma ListedResolves<T>(ids: seq<string>, entries: seq<T>, id: string)
    requires |ids| == |entries| && Distinct(ids) && id in ids
    ensures Resolves(ids, entries, id)
  {
    UniqueLookup(ids, entries, id);
    forall i, k | 0 <= i < k < |ids| ensures ids[i] != ids[k] {
      assert Differ(ids, i, k);
    }
  }

  /** In a valid configuration every lookup that a run makes for a job succeeds, with the one
      matching entry. */
  lemma ReferencesResolve(c: Settings, p: Platform, i: nat)
    requires Valid(c, p) && i < |c.jobs|
    ensures Lookup(JobIDs(c.jobs), c.jobs, c.jobs[i].id) == Some(c.jobs[i])
    ensures Resolves(StorageIDs(c.storages), c.storages, c.jobs[i].storageID)
    ensures forall id :: id in c.jobs[i].databases ==> Resolves(DatabaseIDs(c.databases), c.databases, id)
    ensures forall g, id :: 0 <= g < |c.jobs[i].notices| && id in c.jobs[i].notices[g] ==>
      Resolves(NotificationIDs(c.notifications), c.notifications, id)
  {
    var j := c.jobs[i];
    EachListIsDistinct(c, p);
    assert JobAt(c, i, p);
    var ids := JobIDs(c.jobs);
    forall k | 0 <= k < i ensures ids[k] != j.id { assert Differ(ids, k, i); }
    FirstIs(ids, c.jobs, j.id, i);
    ListedResolves(StorageIDs(c.storages), c.storages, j.storageID);
    forall id | id in j.databases ensures Resolves(DatabaseIDs(c.databases), c.databases, id) {
      ListedResolves(DatabaseIDs(c.databases), c.databases, id);
    }
    forall g, id | 0 <= g < |j.notices| && id in j.notices[g]
      ensures Resolves(NotificationIDs(c.notifications), c.notifications, id)
    {
      assert AllIn(j.notices[g], NotificationIDs(c.notifications));
      ListedResolves(NotificationIDs(c.notifications), c.notifications, id);
    }
  }

  // ---------------------------------------------------------------- removing entries

  function Without<T>(xs: seq<T>, k: nat): seq<T>
    requires k < |xs|
  {
    xs[..k] + xs[k + 1..]
  }

  lemma WithoutIsFresh(a: seq<string>, b: seq<string>, d: seq<string>, k: nat)
    requires k < |b| && AllValid(a + b + d) && Distinct(a + b + d)
    ensures AllValid(a + Without(b, k) + d) && Distinct(a + Without(b, k) + d)
    ensures forall id :: id in Without(b, k) <==> id in b && id != b[k]
  {
    var all, less := a + b + d, a + Without(b, k) + d;
    var cut := |a| + k;
    forall i | 0 <= i < |less| ensures WellFormed(less, i) {
      assert WellFormed(all, if i < cut then i else i + 1);
    }
    forall i, j | 0 <= i < j < |less| ensures Differ(less, i, j) {
      assert Differ(all, if i < cut then i else i + 1, if j < cut then j else j + 1);
    }
    forall m | 0 <= m < |b| && m != k ensures b[m] != b[k] {
      if m < k { assert Differ(all, |a| + m, cut); } else { assert Differ(all, cut, |a| + m); }
    }
    forall id | id in b && id != b[k] ensures id in Without(b, k) {
      var m :| 0 <= m < |b| && b[m] == id;
      assert Without(b, k)[if m < k then m else m - 1] == id;
    }
  }

  /** Removing a job keeps a configuration valid. */
  lemma RemovingAJob(c: Settings, p: Platform, k: nat)
    requires Valid(c, p) && k < |c.jobs|
    ensures Valid(c.(jobs := Without(c.jobs, k)), p)
  {
    var after := c.(jobs := Without(c.jobs, k));
    var front := StorageIDs(c.storages) + DatabaseIDs(c.databases) + NotificationIDs(c.notifications);
    assert JobIDs(after.jobs) == Without(JobIDs(c.jobs), k);
    assert AllIDs(c) == front + JobIDs(c.jobs) + [] && AllIDs(after) == front + Without(JobIDs(c.jobs), k) + [];
    WithoutIsFresh(front, JobIDs(c.jobs), [], k);
    forall i | 0 <= i < |after.jobs| ensures JobAt(after, i, p) {
      assert JobAt(c, if i < k then i else i + 1, p);
    }
  }

  lemma AllInWithout(ids: seq<string>, known: seq<string>, less: seq<string>, gone: string)
    requires forall id :: id in less <==> id in known && id != gone
    ensures AllIn(ids, less) <==> AllIn(ids, known) && gone !in ids
  {
    if AllIn(ids, known) && gone !in ids {
      forall i | 0 <= i < |ids| ensures ids[i] in less { assert ids[i] != gone; }
    }
    if gone in ids {
      var i :| 0 <= i < |ids| && ids[i] == gone;
      assert ids[i] !in less;
    }
  }

  /** Removing a database keeps a valid configuration valid exactly when no job refers to it. */
  lemma RemovingADatabase(c: Settings, p: Platform, k: nat)
    requires Valid(c, p) && k < |c.databases|
    ensures Valid(c.(databases := Without(c.databases, k)), p) <==>
      forall i :: 0 <= i < |c.jobs| ==> c.databases[k].id !in c.jobs[i].databases
  {
    var after, gone := c.(databases := Without(c.databases, k)), c.databases[k].id;
    var a, b, d := StorageIDs(c.storages), DatabaseIDs(c.databases), NotificationIDs(c.notifications) + JobIDs(c.jobs);
    assert DatabaseIDs(after.databases) == Without(b, k);
    assert AllIDs(c) == a + b + d && AllIDs(after) == a + Without(b, k) + d;
    WithoutIsFresh(a, b, d, k);
    forall i | 0 <= i < |after.databases| ensures DatabaseAt(after.databases, i) {
      assert DatabaseAt(c.databases, if i < k then i else i + 1);
    }
    forall i | 0 <= i < |c.jobs| ensures JobAt(after, i, p) <==> gone !in c.jobs[i].databases {
      assert JobAt(c, i, p);
      AllInWithout(c.jobs[i].databases, b, Without(b, k), gone);
    }
  }
}

/**
 The due-date notification engine of main.ts as values: the records and the registry
 (`ObsidianNotification`, `NotificationMap`), the settings merge, the construction of a
 record from a note, the registry upsert with its carry-forward of the `notified` flag,
 and the state a sweep leaves behind.
 */
module Notifications {
  import opened Wrappers
  import opened Text
  import opened Frontmatter

  /** An instant in milliseconds, as `moment.now()` gives it. */
  type Instant = int

  /** A parsed YAML header: key to value. */
  type Payload = map<string, string>

  /**
   The foreign calls the engine makes, fixed for one run of the plugin: the vault's name,
   `parseYaml` (None when it throws or yields no object), moment's date parser, moment's
   `toISOString` and the SHA-1 hex digest.
   */
  datatype Host = Host(
    vaultName: string,
    parseYaml: string -> Option<Payload>,
    parseMoment: string -> Instant,
    isoString: Instant -> string,
    sha1: string -> string)

  // ---------------------------------------------------------------- settings

  datatype Settings = Settings(dueKey: string, interval: int)

  const DefaultSettings: Settings := Settings("due", 1)

  /** What `loadData` gives back: each key may be missing. */
  datatype StoredSettings = StoredSettings(dueKey: Option<string>, interval: Option<int>)

  /** What `saveData(this.settings)` stores. */
  function Stored(s: Settings): StoredSettings
  {
    StoredSettings(Some(s.dueKey), Some(s.interval))
  }

  /** `Object.assign({}, DEFAULT_SETTINGS, loaded)`: a stored key overrides its default. */
  function MergeSettings(loaded: Option<StoredSettings>): (s: Settings)
    ensures loaded.None? ==> s == DefaultSettings
    ensures s.dueKey == DefaultSettings.dueKey || (loaded.Some? && loaded.value.dueKey == Some(s.dueKey))
    ensures s.interval == DefaultSettings.interval || (loaded.Some? && loaded.value.interval == Some(s.interval))
    ensures loaded.Some? && loaded.value.dueKey.Some? ==> s.dueKey == loaded.value.dueKey.value
    ensures loaded.Some? && loaded.value.interval.Some? ==> s.interval == loaded.value.interval.value
  {
    match loaded
    case None => DefaultSettings
    case Some(st) =>
      Settings(
        match st.dueKey case Some(k) => k case None => DefaultSettings.dueKey,
        match st.interval case Some(i) => i case None => DefaultSettings.interval)
  }

  /** Loading what was saved gives back the same settings. */
  lemma LoadSavedSettings(s: Settings)
    ensures MergeSettings(Some(Stored(s))) == s
  {
  }

  // ---------------------------------------------------------------- records

  datatype Notification = Notification(
    id: string,
    at: Instant,
    title: string,
    body: string,
    notified: bool)

  /** Note path, then notification id, to record. */
  type NotificationMap = map<string, map<string, Notification>>

  /**
   The shape every registration leaves: each path holds exactly one record, the one of
   its most recent successful parse, filed under that record's own id.
   */
  ghost predicate WellFormed(reg: NotificationMap)
  {
    && (forall p :: p in reg ==> |reg[p]| == 1)
    && (forall p, k :: p in reg && k in reg[p] ==> reg[p][k].id == k)
  }

  /** The id key: SHA-1 of the vault name followed by the ISO text of the due instant. */
  function NotificationId(host: Host, at: Instant): string
  {
    host.sha1(host.vaultName + host.isoString(at))
  }

  /** JavaScript truthiness of `payload[key]` for a string-valued payload. */
  predicate Truthy(payload: Payload, key: string)
  {
    key in payload && payload[key] != ""
  }

  /** `payload.title || basename`. */
  function TitleOf(payload: Payload, basename: string): (t: string)
    ensures Truthy(payload, "title") ==> t == payload["title"]
    ensures !Truthy(payload, "title") ==> t == basename
    ensures t == "" ==> basename == ""
  {
    if Truthy(payload, "title") then payload["title"] else basename
  }

  /** `payload.body || "Notification from " + basename`. */
  function BodyOf(payload: Payload, basename: string): (b: string)
    ensures Truthy(payload, "body") ==> b == payload["body"]
    ensures !Truthy(payload, "body") ==> b == "Notification from " + basename
    ensures b != ""
  {
    if Truthy(payload, "body") then payload["body"] else "Notification from " + basename
  }

  /** The record a parsed header declares, not yet notified; None when the due key is absent. */
  function Build(host: Host, dueKey: string, basename: string, payload: Payload): (r: Option<Notification>)
    ensures r.Some? <==> dueKey in payload
    ensures r.Some? ==> && !r.value.notified
                        && r.value.at == host.parseMoment(payload[dueKey])
                        && r.value.id == NotificationId(host, r.value.at)
                        && r.value.title == TitleOf(payload, basename)
                        && r.value.body == BodyOf(payload, basename)
  {
    if dueKey in payload then
      var at := host.parseMoment(payload[dueKey]);
      Some(Notification(NotificationId(host, at), at, TitleOf(payload, basename), BodyOf(payload, basename), false))
    else None
  }

  /** The record a note's text declares, if any. */
  function Parse(host: Host, dueKey: string, basename: string, content: string): (r: Option<Notification>)
    ensures !StartsWith(content, Delimiter) ==> r.None?
    ensures r.Some? ==> !r.value.notified && r.value.id == NotificationId(host, r.value.at)
  {
    match FrontmatterOf(content)
    case None => None
    case Some(header) =>
      match host.parseYaml(Join(header, '\n'))
      case None => None
      case Some(payload) => Build(host, dueKey, basename, payload)
  }

  /** A note that does not start with the delimiter declares nothing, so its path's entry stays as it was. */
  lemma NoHeaderLeavesRegistry(reg: NotificationMap, host: Host, dueKey: string, path: string, basename: string, content: string)
    requires !StartsWith(content, Delimiter)
    ensures Upsert(reg, path, Parse(host, dueKey, basename, content)) == reg
  {
  }

  /** A note whose header parses but lacks the due key declares nothing. */
  lemma MissingDueKeyDeclaresNothing(host: Host, dueKey: string, basename: string, content: string, payload: Payload)
    requires FrontmatterOf(content).Some?
    requires host.parseYaml(Join(FrontmatterOf(content).value, '\n')) == Some(payload)
    requires dueKey !in payload
    ensures Parse(host, dueKey, basename, content) == None
  {
  }

  /** The id depends on the vault and the due instant only: two notes due at the same instant collide. */
  lemma IdIgnoresNote(host: Host, dueKey: string, b1: string, c1: string, b2: string, c2: string)
    requires Parse(host, dueKey, b1, c1).Some? && Parse(host, dueKey, b2, c2).Some?
    requires Parse(host, dueKey, b1, c1).value.at == Parse(host, dueKey, b2, c2).value.at
    ensures Parse(host, dueKey, b1, c1).value.id == Parse(host, dueKey, b2, c2).value.id
  {
  }

  // ---------------------------------------------------------------- registry upsert

  /** The `notified` flag a new record ends with: the old record's under the same path and id, else its own. */
  function CarriedNotified(reg: NotificationMap, path: string, n: Notification): bool
  {
    if path in reg && n.id in reg[path] then reg[path][n.id].notified else n.notified
  }

  /** Two registries hold the same at path `p`. */
  predicate SameAt(a: NotificationMap, b: NotificationMap, p: string)
  {
    (p in a <==> p in b) && (p in a ==> a[p] == b[p])
  }

  /**
   Registering what one parse of `path` produced: nothing leaves the registry as it was;
   a record replaces the whole inner map of `path` by that record alone, carrying forward
   `notified` from a record with the same id under the same path.
   */
  function Upsert(reg: NotificationMap, path: string, produced: Option<Notification>): (r: NotificationMap)
    ensures produced.None? ==> r == reg
    ensures forall p :: p != path ==> SameAt(r, reg, p)
    ensures produced.Some? ==> && path in r
                               && r[path].Keys == {produced.value.id}
                               && r[path][produced.value.id].(notified := false) == produced.value.(notified := false)
    ensures produced.Some? && path in reg && produced.value.id in reg[path] ==>
              r[path][produced.value.id].notified == reg[path][produced.value.id].notified
    ensures produced.Some? && !(path in reg && produced.value.id in reg[path]) ==>
              r[path][produced.value.id].notified == produced.value.notified
  {
    match produced
    case None => reg
    case Some(n) => reg[path := map[n.id := n.(notified := CarriedNotified(reg, path, n))]]
  }

  /** Clearing a path's inner map and then adding one record leaves the path holding that record alone. */
  lemma ClearThenAdd(reg: NotificationMap, path: string, n: Notification)
    ensures var cleared := reg[path := map[]];
            cleared[path := cleared[path][n.id := n]] == reg[path := map[n.id := n]]
  {
    var cleared := reg[path := map[]];
    assert cleared[path][n.id := n] == map[n.id := n];
  }

  /** Of two replacements of the same path, the later one wins. */
  lemma ReplaceTwice(reg: NotificationMap, path: string, a: map<string, Notification>, b: map<string, Notification>)
    ensures reg[path := a][path := b] == reg[path := b]
  {
  }

  lemma UpsertWellFormed(reg: NotificationMap, path: string, produced: Option<Notification>)
    requires WellFormed(reg)
    ensures WellFormed(Upsert(reg, path, produced))
  {
  }

  /** Registering the same declaration twice is the same as registering it once. */
  lemma UpsertIdempotent(reg: NotificationMap, path: string, produced: Option<Notification>)
    ensures Upsert(Upsert(reg, path, produced), path, produced) == Upsert(reg, path, produced)
  {
  }

  /** A registered record that has fired stays fired when its note is parsed again unchanged. */
  lemma ReparseKeepsNotified(reg: NotificationMap, path: string, n: Notification)
    requires path in reg && n.id in reg[path] && reg[path][n.id].notified
    ensures Upsert(reg, path, Some(n))[path][n.id].notified
  {
  }

  /** A changed due instant under a new id drops the old record and starts the new one unfired. */
  lemma NewIdStartsUnfired(reg: NotificationMap, path: string, n: Notification, oldId: string)
    requires WellFormed(reg) && path in reg && oldId in reg[path]
    requires n.id != oldId && !n.notified
    ensures oldId !in Upsert(reg, path, Some(n))[path]
    ensures !Upsert(reg, path, Some(n))[path][n.id].notified
  {
    var ks := reg[path].Keys;
    assert |ks - {oldId}| == |ks| - 1 == 0;
    assert n.id !in ks - {oldId};
  }

  // ---------------------------------------------------------------- sweep

  /** The test of the sweep's filter: not yet notified and due strictly before `now`. */
  predicate IsDue(n: Notification, now: Instant)
  {
    !n.notified && n.at < now
  }

  /** The keys the sweep's filter keeps for one path. */
  function Actionable(inner: map<string, Notification>, now: Instant): (ks: set<string>)
    ensures forall k :: k in ks <==> k in inner && IsDue(inner[k], now)
  {
    set k | k in inner && IsDue(inner[k], now)
  }

  /** One path's records after its due ones are marked notified. */
  function SweptPath(inner: map<string, Notification>, now: Instant): (r: map<string, Notification>)
    ensures r.Keys == inner.Keys
    ensures forall k :: k in inner ==> r[k] == if IsDue(inner[k], now) then inner[k].(notified := true) else inner[k]
  {
    map k | k in inner :: if IsDue(inner[k], now) then inner[k].(notified := true) else inner[k]
  }

  /** The registry after a sweep at `now` over the paths the vault lists. */
  function Swept(reg: NotificationMap, now: Instant, listed: seq<string>): (r: NotificationMap)
    ensures r.Keys == reg.Keys
    ensures forall p :: p in reg ==> r[p].Keys == reg[p].Keys
    ensures forall p, k :: p in reg && k in reg[p] ==>
              r[p][k] == if p in listed && IsDue(reg[p][k], now) then reg[p][k].(notified := true) else reg[p][k]
  {
    map p | p in reg :: if p in listed then SweptPath(reg[p], now) else reg[p]
  }

  /** One path's records with those under `keys` marked notified: the state part-way through its sweep. */
  function MarkKeys(inner: map<string, Notification>, keys: set<string>): (r: map<string, Notification>)
    ensures r.Keys == inner.Keys
    ensures forall k :: k in inner ==> r[k] == if k in keys then inner[k].(notified := true) else inner[k]
  {
    map k | k in inner :: if k in keys then inner[k].(notified := true) else inner[k]
  }

  /** Marking one more key of a partly swept path, in place in the registry. */
  lemma MarkOneMore(base: NotificationMap, path: string, inner: map<string, Notification>, keys: set<string>, key: string)
    requires key in inner && key !in keys
    ensures var reg := base[path := MarkKeys(inner, keys)];
            && reg[path][key] == inner[key]
            && reg[path := reg[path][key := reg[path][key].(notified := true)]] == base[path := MarkKeys(inner, keys + {key})]
  {
    var a := MarkKeys(inner, keys)[key := inner[key].(notified := true)];
    var b := MarkKeys(inner, keys + {key});
    assert a.Keys == b.Keys;
    assert a == b;
  }

  /** Marking nothing, and marking every due key. */
  lemma MarkKeysEnds(inner: map<string, Notification>, now: Instant)
    ensures MarkKeys(inner, {}) == inner
    ensures MarkKeys(inner, Actionable(inner, now)) == SweptPath(inner, now)
  {
    assert MarkKeys(inner, {}).Keys == inner.Keys;
    assert MarkKeys(inner, Actionable(inner, now)).Keys == SweptPath(inner, now).Keys;
  }

  /** A sweep over no paths changes nothing. */
  lemma SweptNothing(reg: NotificationMap, now: Instant)
    ensures Swept(reg, now, []) == reg
  {
    var r := Swept(reg, now, []);
    assert r.Keys == reg.Keys;
    forall p | p in r ensures r[p] == reg[p] {
      assert r[p].Keys == reg[p].Keys;
    }
  }

  /** Sweeping one more listed path sweeps that path's records of the state so far. */
  lemma SweptExtend(reg: NotificationMap, now: Instant, listed: seq<string>, path: string)
    requires path in reg
    ensures Swept(reg, now, listed + [path])
         == Swept(reg, now, listed)[path := SweptPath(Swept(reg, now, listed)[path], now)]
  {
    var before := Swept(reg, now, listed);
    var after := Swept(reg, now, listed + [path]);
    var stepped := before[path := SweptPath(before[path], now)];
    assert after.Keys == stepped.Keys;
    forall p | p in after ensures after[p] == stepped[p] {
      assert after[p].Keys == stepped[p].Keys;
    }
  }

  /** The records a sweep over one more listed path fires: those it fired so far, and the path's still-due ones. */
  lemma DueInExtend(reg: NotificationMap, now: Instant, listed: seq<string>, path: string)
    requires path in reg
    ensures Actionable(Swept(reg, now, listed)[path], now) == if path in listed then {} else Actionable(reg[path], now)
    ensures forall k :: k in Actionable(Swept(reg, now, listed)[path], now) ==> Swept(reg, now, listed)[path][k] == reg[path][k]
    ensures forall key :: DueIn(reg, now, listed + [path], key) <==>
              DueIn(reg, now, listed, key) || (key.path == path && key.id in Actionable(Swept(reg, now, listed)[path], now))
  {
  }

  lemma SweptWellFormed(reg: NotificationMap, now: Instant, listed: seq<string>)
    requires WellFormed(reg)
    ensures WellFormed(Swept(reg, now, listed))
  {
    var r := Swept(reg, now, listed);
    forall p | p in r ensures |r[p]| == 1 {
      assert r[p].Keys == reg[p].Keys;
      assert |r[p]| == |r[p].Keys| == |reg[p].Keys| == |reg[p]|;
    }
  }

  /** The identity of a record: its note's path and its id. */
  datatype RecordKey = RecordKey(path: string, id: string)

  /** The record at `key` is one a sweep at `now` over `listed` fires. */
  predicate DueIn(reg: NotificationMap, now: Instant, listed: seq<string>, key: RecordKey)
  {
    && key.path in listed
    && key.path in reg
    && key.id in reg[key.path]
    && IsDue(reg[key.path][key.id], now)
  }

  /** What the desktop alert shows. */
  datatype Alert = Alert(title: string, body: string)

  function AlertOf(n: Notification): Alert
  {
    Alert(n.title, n.body)
  }

  /**
   `alerts` are the alerts for the records under `keys` of one path: one per record, showing
   that record's title and body, and `fired` names those records, each once, in alert order.
   */
  ghost predicate PathReported(inner: map<string, Notification>, path: string, keys: set<string>, alerts: seq<Alert>, fired: seq<RecordKey>)
  {
    && |fired| == |alerts|
    && (forall j :: 0 <= j < |fired| ==>
          && fired[j].path == path
          && fired[j].id in keys
          && fired[j].id in inner
          && alerts[j] == AlertOf(inner[fired[j].id]))
    && (forall k :: k in keys ==> RecordKey(path, k) in fired)
    && (forall i, j :: 0 <= i < j < |fired| ==> fired[i] != fired[j])
  }

  /** Alerting on one more record of the path. */
  lemma PathReportedStep(inner: map<string, Notification>, path: string, keys: set<string>, alerts: seq<Alert>, fired: seq<RecordKey>, key: string)
    requires PathReported(inner, path, keys, alerts, fired)
    requires key in inner && key !in keys
    ensures PathReported(inner, path, keys + {key}, alerts + [AlertOf(inner[key])], fired + [RecordKey(path, key)])
  {
    var fired' := fired + [RecordKey(path, key)];
    forall i, j | 0 <= i < j < |fired'| ensures fired'[i] != fired'[j] {
      if j == |fired| {
        assert fired'[i] == fired[i];
      }
    }
  }

  /**
   `alerts` are the alerts of a sweep at `now` over `listed`: exactly one per record the
   sweep fires, showing that record's title and body; `fired` names those records in alert order.
   */
  ghost predicate SweepReported(reg: NotificationMap, now: Instant, listed: seq<string>, alerts: seq<Alert>, fired: seq<RecordKey>)
  {
    && |fired| == |alerts|
    && (forall j :: 0 <= j < |fired| ==>
          && DueIn(reg, now, listed, fired[j])
          && alerts[j] == AlertOf(reg[fired[j].path][fired[j].id]))
    && (forall key :: DueIn(reg, now, listed, key) ==> key in fired)
    && (forall i, j :: 0 <= i < j < |fired| ==> fired[i] != fired[j])
  }

  /** The first two records a sweep report names are due and distinct. */
  lemma FiredHead(reg: NotificationMap, now: Instant, listed: seq<string>, alerts: seq<Alert>, fired: seq<RecordKey>)
    requires SweepReported(reg, now, listed, alerts, fired)
    ensures |fired| > 0 ==> DueIn(reg, now, listed, fired[0])
    ensures |fired| > 1 ==> DueIn(reg, now, listed, fired[1]) && fired[0] != fired[1]
  {
  }

  /** A sweep with exactly one record due raises exactly that record's alert. */
  lemma OnlyKeyReported(reg: NotificationMap, now: Instant, listed: seq<string>, alerts: seq<Alert>, fired: seq<RecordKey>, key: RecordKey)
    requires SweepReported(reg, now, listed, alerts, fired)
    requires DueIn(reg, now, listed, key)
    requires forall k :: DueIn(reg, now, listed, k) ==> k == key
    ensures fired == [key]
    ensures alerts == [AlertOf(reg[key.path][key.id])]
  {
    assert key in fired;
    FiredHead(reg, now, listed, alerts, fired);
  }

  /** A sweep with nothing due raises no alert. */
  lemma NothingReported(reg: NotificationMap, now: Instant, listed: seq<string>, alerts: seq<Alert>, fired: seq<RecordKey>)
    requires SweepReported(reg, now, listed, alerts, fired)
    requires forall k :: !DueIn(reg, now, listed, k)
    ensures fired == [] && alerts == []
  {
    FiredHead(reg, now, listed, alerts, fired);
  }

  /** The report of a sweep extended by the report of one more listed path. */
  lemma SweepReportedStep(reg: NotificationMap, now: Instant, listed: seq<string>, path: string,
                          alerts: seq<Alert>, fired: seq<RecordKey>, pathAlerts: seq<Alert>, pathFired: seq<RecordKey>)
    requires SweepReported(reg, now, listed, alerts, fired)
    requires path in reg
    requires PathReported(Swept(reg, now, listed)[path], path, Actionable(Swept(reg, now, listed)[path], now), pathAlerts, pathFired)
    ensures SweepReported(reg, now, listed + [path], alerts + pathAlerts, fired + pathFired)
  {
    DueInExtend(reg, now, listed, path);
    var inner := Swept(reg, now, listed)[path];
    var listed' := listed + [path];
    var all := fired + pathFired;
    var allAlerts := alerts + pathAlerts;
    forall j | 0 <= j < |all|
      ensures DueIn(reg, now, listed', all[j]) && allAlerts[j] == AlertOf(reg[all[j].path][all[j].id])
    {
      if j < |fired| {
        assert all[j] == fired[j] && allAlerts[j] == alerts[j];
        assert DueIn(reg, now, listed, fired[j]);
      } else {
        var q := j - |fired|;
        assert all[j] == pathFired[q] && allAlerts[j] == pathAlerts[q];
        assert pathFired[q].id in Actionable(inner, now);
        assert inner[pathFired[q].id] == reg[path][pathFired[q].id];
      }
    }
    forall key | DueIn(reg, now, listed', key) ensures key in all {
      if !DueIn(reg, now, listed, key) {
        assert key == RecordKey(path, key.id);
        assert key in pathFired;
      }
    }
    forall i, j | 0 <= i < j < |all| ensures all[i] != all[j] {
      if j < |fired| {
        assert all[i] == fired[i] && all[j] == fired[j];
      } else if i >= |fired| {
        assert all[i] == pathFired[i - |fired|] && all[j] == pathFired[j - |fired|];
      } else {
        assert all[i] == fired[i] && all[j] == pathFired[j - |fired|];
        assert DueIn(reg, now, listed, fired[i]);
        assert pathFired[j - |fired|].id in Actionable(inner, now);
        assert path !in listed;
      }
    }
  }

  /** A listed path the registry does not hold adds nothing to a sweep. */
  lemma SweepReportedSkip(reg: NotificationMap, now: Instant, listed: seq<string>, path: string,
                          alerts: seq<Alert>, fired: seq<RecordKey>)
    requires SweepReported(reg, now, listed, alerts, fired)
    requires path !in reg
    ensures SweepReported(reg, now, listed + [path], alerts, fired)
    ensures Swept(reg, now, listed + [path]) == Swept(reg, now, listed)
  {
    assert forall key :: DueIn(reg, now, listed + [path], key) ==> DueIn(reg, now, listed, key);
    assert forall key :: DueIn(reg, now, listed, key) ==> DueIn(reg, now, listed + [path], key);
  }

  /** A sweep sets `notified` and nothing else, never clears it, and only on records due before `now`. */
  lemma SweepOnlyMarksDue(reg: NotificationMap, now: Instant, listed: seq<string>, p: string, k: string)
    requires p in reg && k in reg[p]
    ensures Swept(reg, now, listed)[p][k].(notified := false) == reg[p][k].(notified := false)
    ensures reg[p][k].notified ==> Swept(reg, now, listed)[p][k].notified
    ensures Swept(reg, now, listed)[p][k].notified != reg[p][k].notified <==> DueIn(reg, now, listed, RecordKey(p, k))
    ensures Swept(reg, now, listed)[p][k].notified && !reg[p][k].notified ==> reg[p][k].at < now
  {
  }

  /** After a sweep at `now`, no record it marked is due again, at any later instant. */
  lemma FiredNeverDueAgain(reg: NotificationMap, now: Instant, later: Instant, listed: seq<string>, listed': seq<string>, key: RecordKey)
    requires DueIn(reg, now, listed, key)
    ensures !DueIn(Swept(reg, now, listed), later, listed', key)
  {
  }

  /** A second sweep at the same or an earlier instant finds nothing due and changes nothing. */
  lemma SweepIdempotent(reg: NotificationMap, now: Instant, earlier: Instant, listed: seq<string>)
    requires earlier <= now
    ensures forall key :: !DueIn(Swept(reg, now, listed), earlier, listed, key)
    ensures Swept(Swept(reg, now, listed), earlier, listed) == Swept(reg, now, listed)
  {
    var once := Swept(reg, now, listed);
    var twice := Swept(once, earlier, listed);
    forall p | p in once ensures twice[p] == once[p] {
      assert twice[p].Keys == once[p].Keys;
    }
  }

  /**
   Sweep, then re-register the note unchanged: the record stays notified, and no later
   sweep over any paths at any instant finds it due.
   */
  lemma FiredSurvivesReparse(reg: NotificationMap, path: string, n: Notification, now: Instant, later: Instant, listed: seq<string>, listed': seq<string>)
    requires path in listed && !n.notified && n.at < now
    ensures
      var registered := Upsert(reg, path, Some(n));
      var reparsed := Upsert(Swept(registered, now, listed), path, Some(n));
      && reparsed[path][n.id].notified
      && !DueIn(reparsed, later, listed', RecordKey(path, n.id))
  {
    var registered := Upsert(reg, path, Some(n));
    assert DueIn(registered, now, listed, RecordKey(path, n.id)) || registered[path][n.id].notified;
  }

  /**
   A note holding one due record, swept over its own path: that record is the only one due,
   the sweep marks it notified, and afterwards nothing is due.
   */
  lemma SingleRecordSweep(path: string, n: Notification, now: Instant)
    requires IsDue(n, now)
    ensures
      var reg := map[path := map[n.id := n]];
      var swept := Swept(reg, now, [path]);
      && DueIn(reg, now, [path], RecordKey(path, n.id))
      && (forall key :: DueIn(reg, now, [path], key) ==> key == RecordKey(path, n.id))
      && swept == map[path := map[n.id := n.(notified := true)]]
      && forall key :: !DueIn(swept, now, [path], key)
  {
    var reg := map[path := map[n.id := n]];
    SweepIdempotent(reg, now, now, [path]);
    var swept := Swept(reg, now, [path]);
    assert swept[path] == map[n.id := n.(notified := true)];
  }

  /**
   A worked case: a note "Taxes" whose lines are a header declaring only a due instant and
   then its text declares that instant with the default title and body.
   */
  lemma TaxesDeclaration(host: Host, content: string)
    requires Split(content, '\n') == ["---", "due: 2024-01-01T00:00:00Z", "---", "Pay them."]
    requires host.parseYaml("due: 2024-01-01T00:00:00Z") == Some(map["due" := "2024-01-01T00:00:00Z"])
    requires host.parseMoment("2024-01-01T00:00:00Z") == 1704067200000
    ensures Parse(host, "due", "Taxes", content)
         == Some(Notification(NotificationId(host, 1704067200000), 1704067200000, "Taxes", "Notification from Taxes", false))
  {
    var lines := Split(content, '\n');
    assert content == Join(lines, '\n') == lines[0] + ['\n'] + Join(lines[1..], '\n');
    assert content[..3] == Delimiter;
    assert lines[1..][1..] == ["---", "Pay them."];
    assert HeaderLines(lines[1..]) == ["due: 2024-01-01T00:00:00Z"];
    assert FrontmatterOf(content) == Some(["due: 2024-01-01T00:00:00Z"]);
    assert Join(["due: 2024-01-01T00:00:00Z"], '\n') == "due: 2024-01-01T00:00:00Z";
    var payload := map["due" := "2024-01-01T00:00:00Z"];
    assert TitleOf(payload, "Taxes") == "Taxes";
    assert BodyOf(payload, "Taxes") == "Notification from Taxes";
  }

  /** Registering the note "Taxes" into an empty registry leaves its one record under its path. */
  lemma TaxesRegistered(host: Host, content: string)
    requires Split(content, '\n') == ["---", "due: 2024-01-01T00:00:00Z", "---", "Pay them."]
    requires host.parseYaml("due: 2024-01-01T00:00:00Z") == Some(map["due" := "2024-01-01T00:00:00Z"])
    requires host.parseMoment("2024-01-01T00:00:00Z") == 1704067200000
    ensures
      var n := Notification(NotificationId(host, 1704067200000), 1704067200000, "Taxes", "Notification from Taxes", false);
      RegisterAll(map[], host, "due", [File("Taxes.md", "Taxes", Some(content))]) == map["Taxes.md" := map[n.id := n]]
  {
    TaxesDeclaration(host, content);
    var n := Notification(NotificationId(host, 1704067200000), 1704067200000, "Taxes", "Notification from Taxes", false);
    var file := File("Taxes.md", "Taxes", Some(content));
    assert [file][1..] == [];
    assert RegisterAll(map[], host, "due", [file]) == Upsert(map[], "Taxes.md", Some(n));
  }

  /**
   The same note registered and swept a day after its due instant: it is due, the sweep
   marks it notified, and a second sweep at the same instant finds nothing due.
   */
  lemma TaxesScenario(host: Host, content: string)
    requires Split(content, '\n') == ["---", "due: 2024-01-01T00:00:00Z", "---", "Pay them."]
    requires host.parseYaml("due: 2024-01-01T00:00:00Z") == Some(map["due" := "2024-01-01T00:00:00Z"])
    requires host.parseMoment("2024-01-01T00:00:00Z") == 1704067200000
    ensures
      var n := Notification(NotificationId(host, 1704067200000), 1704067200000, "Taxes", "Notification from Taxes", false);
      var registered := RegisterAll(map[], host, "due", [File("Taxes.md", "Taxes", Some(content))]);
      var swept := Swept(registered, 1704153600000, ["Taxes.md"]);
      && registered == map["Taxes.md" := map[n.id := n]]
      && DueIn(registered, 1704153600000, ["Taxes.md"], RecordKey("Taxes.md", n.id))
      && (forall key :: DueIn(registered, 1704153600000, ["Taxes.md"], key) ==> key == RecordKey("Taxes.md", n.id))
      && swept == map["Taxes.md" := map[n.id := n.(notified := true)]]
      && forall key :: !DueIn(swept, 1704153600000, ["Taxes.md"], key)
  {
    TaxesRegistered(host, content);
    var n := Notification(NotificationId(host, 1704067200000), 1704067200000, "Taxes", "Notification from Taxes", false);
    SingleRecordSweep("Taxes.md", n, 1704153600000);
  }

  // ---------------------------------------------------------------- registering many notes

  /** A note as the vault hands it over: its path, its basename and its text (None when the read fails). */
  datatype File = File(path: string, basename: string, content: Option<string>)

  /** The declaration a file yields: nothing when it cannot be read. */
  function ParseFile(host: Host, dueKey: string, f: File): (r: Option<Notification>)
    ensures f.content.None? ==> r.None?
  {
    match f.content
    case None => None
    case Some(c) => Parse(host, dueKey, f.basename, c)
  }

  /** No file of the list has path `p`. */
  predicate Untouched(files: seq<File>, p: string)
  {
    forall k :: 0 <= k < |files| ==> files[k].path != p
  }

  /** The registry after the files are processed one at a time, in order. */
  function RegisterAll(reg: NotificationMap, host: Host, dueKey: string, files: seq<File>): (r: NotificationMap)
    ensures forall p :: Untouched(files, p) ==> SameAt(r, reg, p)
    decreases |files|
  {
    if files == [] then reg
    else
      var r := RegisterAll(Upsert(reg, files[0].path, ParseFile(host, dueKey, files[0])), host, dueKey, files[1..]);
      assert forall p :: Untouched(files, p) ==> Untouched(files[1..], p);
      r
  }

  lemma {:induction false} RegisterAllWellFormed(reg: NotificationMap, host: Host, dueKey: string, files: seq<File>)
    requires WellFormed(reg)
    ensures WellFormed(RegisterAll(reg, host, dueKey, files))
    decreases |files|
  {
    if files != [] {
      UpsertWellFormed(reg, files[0].path, ParseFile(host, dueKey, files[0]));
      RegisterAllWellFormed(Upsert(reg, files[0].path, ParseFile(host, dueKey, files[0])), host, dueKey, files[1..]);
    }
  }

  /** The notes of a batch are distinct: no two files share a path. */
  predicate DistinctPaths(files: seq<File>)
  {
    forall a, b :: 0 <= a < b < |files| ==> files[a].path != files[b].path
  }

  /** Registering at `p` reads the registry only at `p`. */
  lemma UpsertLocal(a: NotificationMap, b: NotificationMap, p: string, produced: Option<Notification>)
    requires SameAt(a, b, p)
    ensures SameAt(Upsert(a, p, produced), Upsert(b, p, produced), p)
  {
  }

  /** A batch is its first file's registration followed by the rest. */
  lemma RegisterAllFirst(reg: NotificationMap, host: Host, dueKey: string, files: seq<File>)
    requires files != []
    ensures RegisterAll(reg, host, dueKey, files)
         == RegisterAll(Upsert(reg, files[0].path, ParseFile(host, dueKey, files[0])), host, dueKey, files[1..])
  {
  }

  /**
   In a batch of distinct notes each file is registered on its own: what its path holds
   afterwards is what registering that file alone would leave there, whatever the other
   files hold or whether their reads fail.
   */
  lemma {:induction false} RegisterAllPerFile(reg: NotificationMap, host: Host, dueKey: string, files: seq<File>, i: int)
    requires DistinctPaths(files)
    requires 0 <= i < |files|
    ensures SameAt(RegisterAll(reg, host, dueKey, files),
                   Upsert(reg, files[i].path, ParseFile(host, dueKey, files[i])),
                   files[i].path)
    decreases |files|
  {
    var first := Upsert(reg, files[0].path, ParseFile(host, dueKey, files[0]));
    RegisterAllFirst(reg, host, dueKey, files);
    var rest := files[1..];
    if i == 0 {
      assert Untouched(rest, files[0].path) by {
        forall k | 0 <= k < |rest| ensures rest[k].path != files[0].path {
          assert rest[k] == files[k + 1];
        }
      }
    } else {
      assert DistinctPaths(rest) by {
        forall a, b | 0 <= a < b < |rest| ensures rest[a].path != rest[b].path {
          assert rest[a] == files[a + 1] && rest[b] == files[b + 1];
        }
      }
      assert rest[i - 1] == files[i];
      RegisterAllPerFile(first, host, dueKey, rest, i - 1);
      UpsertLocal(first, reg, files[i].path, ParseFile(host, dueKey, files[i]));
    }
  }

  /**
   The order of a batch of distinct notes does not matter: any rearrangement of the same
   files leaves the same registry. This is why the model may process asynchronous reads
   in list order.
   */
  lemma RegisterAllOrderFree(reg: NotificationMap, host: Host, dueKey: string, files: seq<File>, files': seq<File>)
    requires DistinctPaths(files) && DistinctPaths(files')
    requires multiset(files) == multiset(files')
    ensures RegisterAll(reg, host, dueKey, files) == RegisterAll(reg, host, dueKey, files')
  {
    var r := RegisterAll(reg, host, dueKey, files);
    var r' := RegisterAll(reg, host, dueKey, files');
    forall p
      ensures SameAt(r, r', p)
    {
      SameAtAnyPath(reg, host, dueKey, files, files', p);
    }
    SameEverywhere(r, r');
  }

  /** Registries that hold the same at every path are equal. */
  lemma SameEverywhere(a: NotificationMap, b: NotificationMap)
    requires forall p :: SameAt(a, b, p)
    ensures a == b
  {
    assert a.Keys == b.Keys by {
      forall p ensures p in a <==> p in b {
        assert SameAt(a, b, p);
      }
    }
    forall p | p in a ensures a[p] == b[p] {
      assert SameAt(a, b, p);
    }
  }

  /** The pointwise step of `RegisterAllOrderFree`. */
  lemma SameAtAnyPath(reg: NotificationMap, host: Host, dueKey: string, files: seq<File>, files': seq<File>, p: string)
    requires DistinctPaths(files) && DistinctPaths(files')
    requires multiset(files) == multiset(files')
    ensures SameAt(RegisterAll(reg, host, dueKey, files), RegisterAll(reg, host, dueKey, files'), p)
  {
    if i :| 0 <= i < |files| && files[i].path == p {
      assert files[i] in multiset(files');
      var j :| 0 <= j < |files'| && files'[j] == files[i];
      RegisterAllPerFile(reg, host, dueKey, files, i);
      RegisterAllPerFile(reg, host, dueKey, files', j);
    } else {
      assert Untouched(files', p) by {
        forall k | 0 <= k < |files'| ensures files'[k].path != p {
          assert files'[k] in multiset(files);
        }
      }
      assert Untouched(files, p);
      assert SameAt(RegisterAll(reg, host, dueKey, files), reg, p);
      assert SameAt(RegisterAll(reg, host, dueKey, files'), reg, p);
    }
  }
}

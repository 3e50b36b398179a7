/**
 The plugin object of main.ts (`MyPlugin`): its settings and its registry of notifications,
 updated in place by `registerNotifications` and `notifyDesktop`.
 */
module Plugin {
  import opened Wrappers
  import opened Text
  import opened Frontmatter
  import opened Notifications

  class NotifierPlugin {
    var settings: Settings
    var registered: NotificationMap
    /** The vault and the foreign libraries the plugin calls. */
    const host: Host

    ghost predicate Valid()
      reads this
    {
      WellFormed(registered)
    }

    /** `onload`'s `loadSettings`: the stored settings merged over the defaults, and an empty registry. */
    constructor (host: Host, loaded: Option<StoredSettings>)
      ensures Valid()
      ensures this.host == host
      ensures settings == MergeSettings(loaded)
      ensures registered == map[]
    {
      this.host := host;
      settings := MergeSettings(loaded);
      registered := map[];
    }

    /**
     The first half of the `cachedRead(file).then(...)` callback of `registerNotifications`:
     the notifications one file declares, each carrying forward `notified` from the record
     already registered under the same path and id. A read that fails, a header that does
     not parse and a header without the due key all declare none.
     */
    method Declarations(file: File) returns (notifications: seq<Notification>)
      ensures notifications == match ParseFile(host, settings.dueKey, file)
                               case None => []
                               case Some(n) => [n.(notified := CarriedNotified(registered, file.path, n))]
    {
      notifications := [];
      if file.content.None? {
        return;
      }
      var content := file.content.value;
      var frontmatter := ExtractFrontmatter(content);
      if frontmatter.Some? {
        var payload := host.parseYaml(Join(frontmatter.value, '\n'));
        if payload.None? {
          return;
        }
        if settings.dueKey in payload.value {
          var at := host.parseMoment(payload.value[settings.dueKey]);
          var id := NotificationId(host, at);
          var notification := Notification(id, at, TitleOf(payload.value, file.basename), BodyOf(payload.value, file.basename), false);
          if file.path in registered {
            if id in registered[file.path] {
              notification := notification.(notified := registered[file.path][id].notified);
            }
          }
          notifications := notifications + [notification];
        }
      }
    }

    /**
     The `notifications.forEach` of `registerNotifications`: for each notification in turn,
     the path's inner map is replaced by one holding that notification alone. With none,
     the path's inner map is left as it was.
     */
    method ReplaceInner(path: string, notifications: seq<Notification>)
      modifies this
      ensures settings == old(settings)
      ensures notifications == [] ==> registered == old(registered)
      ensures notifications != [] ==>
                registered == old(registered)[path := map[notifications[|notifications| - 1].id := notifications[|notifications| - 1]]]
    {
      for i := 0 to |notifications|
        invariant settings == old(settings)
        invariant i == 0 ==> registered == old(registered)
        invariant i > 0 ==> registered == old(registered)[path := map[notifications[i - 1].id := notifications[i - 1]]]
      {
        var n := notifications[i];
        ghost var before := registered;
        registered := registered[path := map[]];
        registered := registered[path := registered[path][n.id := n]];
        ClearThenAdd(before, path, n);
        if i > 0 {
          ReplaceTwice(old(registered), path, map[notifications[i - 1].id := notifications[i - 1]], map[n.id := n]);
        }
      }
    }

    /** One file's `cachedRead(file).then(...)` callback: its declarations, then the registry update. */
    method RegisterFile(file: File)
      requires Valid()
      modifies this
      ensures Valid()
      ensures settings == old(settings)
      ensures registered == Upsert(old(registered), file.path, ParseFile(host, settings.dueKey, file))
    {
      ghost var produced := ParseFile(host, settings.dueKey, file);
      ghost var target := Upsert(registered, file.path, produced);
      UpsertWellFormed(registered, file.path, produced);
      var notifications := Declarations(file);
      assert produced.None? ==> notifications == [] && target == registered;
      assert produced.Some? ==> |notifications| == 1 && target == registered[file.path := map[notifications[0].id := notifications[0]]];
      ReplaceInner(file.path, notifications);
    }

    /** `registerNotifications(file?)`: each file of the list (all notes, or the modified one) in turn. */
    method RegisterNotifications(files: seq<File>)
      requires Valid()
      modifies this
      ensures Valid()
      ensures settings == old(settings)
      ensures registered == RegisterAll(old(registered), host, settings.dueKey, files)
    {
      for i := 0 to |files|
        invariant Valid()
        invariant settings == old(settings)
        invariant RegisterAll(old(registered), host, settings.dueKey, files)
               == RegisterAll(registered, host, settings.dueKey, files[i..])
      {
        assert files[i..][1..] == files[i + 1..];
        RegisterFile(files[i]);
      }
    }

    /**
     The `actionable.forEach` of `notifyDesktop` for one path: alert on each record the filter
     kept and mark it notified. `fired` names the records alerted, in alert order.
     */
    method FirePath(path: string, now: Instant) returns (alerts: seq<Alert>, ghost fired: seq<RecordKey>)
      requires path in registered
      modifies this
      ensures settings == old(settings)
      ensures registered == old(registered)[path := SweptPath(old(registered)[path], now)]
      ensures PathReported(old(registered)[path], path, Actionable(old(registered)[path], now), alerts, fired)
    {
      ghost var inner := registered[path];
      ghost var due := Actionable(inner, now);
      var actionable := Actionable(registered[path], now);
      alerts, fired := [], [];
      MarkKeysEnds(inner, now);
      assert old(registered)[path := inner] == old(registered);
      assert due - actionable == {};
      while actionable != {}
        invariant actionable <= due
        invariant path in registered && settings == old(settings)
        invariant registered == old(registered)[path := MarkKeys(inner, due - actionable)]
        invariant PathReported(inner, path, due - actionable, alerts, fired)
        decreases actionable
      {
        var key :| key in actionable;
        ghost var done := due - actionable;
        MarkOneMore(old(registered), path, inner, done, key);
        PathReportedStep(inner, path, done, alerts, fired, key);
        var notification := registered[path][key];
        alerts := alerts + [AlertOf(notification)];
        fired := fired + [RecordKey(path, key)];
        registered := registered[path := registered[path][key := notification.(notified := true)]];
        assert registered == old(registered)[path := MarkKeys(inner, done + {key})];
        actionable := actionable - {key};
        assert due - actionable == done + {key};
      }
      assert due - actionable == due;
    }

    /**
     `notifyDesktop`: for each note the vault lists that the registry holds, alert once on
     every record not yet notified and due strictly before `now`, and mark it notified.
     */
    method NotifyDesktop(now: Instant, vaultPaths: seq<string>) returns (alerts: seq<Alert>, ghost fired: seq<RecordKey>)
      requires Valid()
      modifies this
      ensures Valid()
      ensures settings == old(settings)
      ensures registered == Swept(old(registered), now, vaultPaths)
      ensures SweepReported(old(registered), now, vaultPaths, alerts, fired)
    {
      ghost var start := registered;
      alerts, fired := [], [];
      SweptNothing(start, now);
      assert vaultPaths[..0] == [];
      for i := 0 to |vaultPaths|
        invariant settings == old(settings)
        invariant registered == Swept(start, now, vaultPaths[..i])
        invariant SweepReported(start, now, vaultPaths[..i], alerts, fired)
      {
        var path := vaultPaths[i];
        ghost var done := vaultPaths[..i];
        assert vaultPaths[..i + 1] == done + [path];
        if path in registered {
          SweptExtend(start, now, done, path);
          var pathAlerts;
          ghost var pathFired;
          pathAlerts, pathFired := FirePath(path, now);
          SweepReportedStep(start, now, done, path, alerts, fired, pathAlerts, pathFired);
          alerts, fired := alerts + pathAlerts, fired + pathFired;
        } else {
          SweepReportedSkip(start, now, done, path, alerts, fired);
        }
      }
      assert vaultPaths[..|vaultPaths|] == vaultPaths;
      SweptWellFormed(start, now, vaultPaths);
    }
  }

  /**
   A worked case through the plugin object: a freshly loaded plugin registers the note
   "Taxes", whose header declares only a due instant, and sweeps a day after that instant.
   The first sweep raises exactly one alert, with the default title and body; a second
   sweep at the same instant raises none.
   */
  method TaxesAlerts(host: Host, content: string) returns (first: seq<Alert>, second: seq<Alert>)
    requires Split(content, '\n') == ["---", "due: 2024-01-01T00:00:00Z", "---", "Pay them."]
    requires host.parseYaml("due: 2024-01-01T00:00:00Z") == Some(map["due" := "2024-01-01T00:00:00Z"])
    requires host.parseMoment("2024-01-01T00:00:00Z") == 1704067200000
    ensures first == [Alert("Taxes", "Notification from Taxes")]
    ensures second == []
  {
    var plugin := new NotifierPlugin(host, None);
    plugin.RegisterNotifications([File("Taxes.md", "Taxes", Some(content))]);
    TaxesScenario(host, content);
    ghost var key := RecordKey("Taxes.md", NotificationId(host, 1704067200000));
    ghost var registered := plugin.registered;
    ghost var fired;
    first, fired := plugin.NotifyDesktop(1704153600000, ["Taxes.md"]);
    OnlyKeyReported(registered, 1704153600000, ["Taxes.md"], first, fired, key);
    ghost var swept := plugin.registered;
    second, fired := plugin.NotifyDesktop(1704153600000, ["Taxes.md"]);
    NothingReported(swept, 1704153600000, ["Taxes.md"], second, fired);
  }
}

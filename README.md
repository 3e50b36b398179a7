# Obsidian notifier: the due-date notification engine

This project models the core of an Obsidian plugin (`main.ts`, class `MyPlugin`) in Dafny and proves properties of that model. The plugin reads the front matter of each note. When the front matter declares a due instant under the configured key (default `due`), the plugin keeps a notification record for the note. A periodic sweep raises one desktop alert for each record whose instant has passed and marks the record as notified.

The model has five modules:

- `Wrappers` (wrappers.dfy): the `Option` type. It stands for JavaScript's `undefined`.
- `Text` (text.dfy): JavaScript's `split` on one separator character, `join` and `startsWith`. It proves that splitting and joining undo each other.
- `Frontmatter` (frontmatter.dfy): the header scan.
  - A note has a header only when its text starts with `---`.
  - The header is the run of lines after the first line, up to the first line that is empty or equal to `---`, or up to the end of the text.
  - `ExtractFrontmatter` is the source's `shift`/`push` loop. It is proved equal to the reference function `HeaderLines`.
  - `HeaderLines` is proved to be exactly the longest prefix with no stopping line.
- `Notifications` (notifications.dfy): the pieces of the engine as values.
  - The record type `Notification` (the source's `ObsidianNotification`) and the registry type (`NotificationMap`: note path, then id, then record).
  - The settings merge.
  - The id key: SHA-1 of the vault name followed by the ISO text of the due instant.
  - The title and body defaults.
  - The registry upsert. It carries the `notified` flag forward, and it leaves the registry untouched when a parse declares nothing.
  - The state a sweep leaves behind.
  - The lemmas: `notified` only goes from false to true; a record fires at most once; the fired state survives a re-parse; a record never fires early; nothing else changes.
- `Plugin` (plugin.dfy): the class `NotifierPlugin`. Its fields are the settings and the registry, and its methods update the registry in place.
  - `RegisterFile` and `RegisterNotifications` model `registerNotifications`.
  - `NotifyDesktop` models `notifyDesktop`. It returns the alerts raised, as (title, body) pairs. A ghost sequence names the record behind each alert.
  - Every method is proved against the specification functions of `Notifications`.
  - The class invariant: each path holds exactly one record, filed under that record's own id.

The foreign calls are fields of the datatype `Host`. These are the vault name, `parseYaml`, moment's date parser, moment's `toISOString` and the SHA-1 digest. The current time and the vault's list of notes are parameters. A note's text is handed in already read.

The model follows the code, including these details:
- The header also ends at the first empty line. The `line && …` test treats `""` as false.
- When a parse produces no notification, the note's old inner map is kept, not cleared. The replacement sits inside the `forEach` over the notifications produced.
- An empty `title` or `body` also falls back to the default, because `||` tests truthiness.
- The sweep runs every minute. The interval is hard-coded, and the `interval` setting is never read.

## Model

| member | source | states |
|---|---|---|
| Text.Join | main.ts:79 | defines `frontmatter.join("\n")`: "" for no lines, the one line for one, else the lines with one separator between neighbours; `Split` and `SplitJoin` prove it and splitting undo each other |
| Text.StartsWith | main.ts:69 | defines `content.startsWith("---")`: the text is at least as long as the prefix and begins with it |
| Text.Split | main.ts:70 | `content.split('\n')` gives at least one part; no part contains the separator; joining the parts gives back the text |
| Text.SplitJoin | main.ts:70-79 | splitting a join of separator-free parts gives back those parts |
| Frontmatter.StopsHeader | main.ts:74 | defines when the scan stops at a line: the line is "" (falsy) or `---`; the loop runs while its negation holds |
| Frontmatter.HeaderLines | main.ts:72-77 | defines the reference result of the scan: the lines before the first stopping line, or all of them; `ExtractFrontmatter` is proved equal to it |
| Frontmatter.HeaderLinesIsHeader | main.ts:72-77 | the scanned header is a prefix of the lines after the first; it holds no empty line and no `---` line; it ends at such a line or at the end of the input |
| Frontmatter.HeaderIsHeaderLines | main.ts:72-77 | any prefix with those properties is the scanned header (uniqueness) |
| Frontmatter.HeaderLinesCharacterized | main.ts:72-77 | a sequence is the header of the lines if and only if it is their longest stop-free prefix |
| Frontmatter.FrontmatterOf | main.ts:69-77 | a note has a header exactly when its text starts with `---` |
| Frontmatter.FrontmatterIsHeader | main.ts:69-77 | a note that starts with `---` has, as its header, the longest stop-free run of the lines after its first |
| Frontmatter.ExtractFrontmatter | main.ts:69-77 | the `shift`/`push` loop returns no header when the text does not start with `---`, else exactly the reference header |
| Notifications.Stored | main.ts:145-147 | defines what `saveSettings` writes: both keys of the current settings, present |
| Notifications.MergeSettings | main.ts:141-143 | with no stored data the settings are the defaults (`due`, 1); each stored key overrides its default; every other key keeps its default |
| Notifications.LoadSavedSettings | main.ts:141-147 | loading the settings that `saveSettings` stored gives back the same settings |
| Notifications.NotificationId | main.ts:82-83 | defines the id: the SHA-1 digest of the vault name followed by the ISO text of the due instant; `IdIgnoresNote` and `Build` state what it depends on |
| Notifications.Truthy | main.ts:87-88 | defines the `||` test on a payload key: present and not "" |
| Notifications.TitleOf | main.ts:87 | the title is `payload.title` when that is truthy, else the basename; it is empty only if the basename is |
| Notifications.BodyOf | main.ts:88 | the body is `payload.body` when that is truthy, else `"Notification from " + basename`; it is never empty |
| Notifications.Build | main.ts:80-90 | a record exists exactly when the due key is in the payload; the record is not yet notified; its id is the hash of the vault name and its instant |
| Notifications.Parse | main.ts:69-90 | a note without a leading `---` declares nothing; a declared record is not yet notified and its id depends only on its instant |
| Notifications.NoHeaderLeavesRegistry | main.ts:69-106 | registering a note that does not start with `---` leaves the registry unchanged |
| Notifications.MissingDueKeyDeclaresNothing | main.ts:79-80 | a header that parses but lacks the due key declares nothing |
| Notifications.IdIgnoresNote | main.ts:81-83 | two notes due at the same instant get the same id, whatever their path, title or body |
| Notifications.CarriedNotified | main.ts:92-97 | defines the carried flag: the `notified` of the record already under the same path and id, else the new record's own |
| Notifications.Upsert | main.ts:92-106 | nothing declared: registry unchanged; else that path's inner map is exactly {id ↦ new record}; `notified` is the old record's when the path held that id, else the new record's; all other paths are unchanged |
| Notifications.UpsertWellFormed | main.ts:103-106 | registration keeps every inner map a singleton filed under its record's id |
| Notifications.UpsertIdempotent | main.ts:92-106 | registering the same declaration twice equals registering it once |
| Notifications.ReparseKeepsNotified | main.ts:92-97 | a record that has fired stays notified when its note is parsed again with the same id |
| Notifications.NewIdStartsUnfired | main.ts:82-106 | a changed due instant under a new id removes the old record from the path, and the new record starts unfired |
| Notifications.IsDue | main.ts:122 | defines the filter test: not yet notified and due strictly before `now` (`isBefore`) |
| Notifications.Actionable | main.ts:120-123 | the filter keeps exactly the keys whose record is not notified and due strictly before `now` |
| Notifications.SweptPath | main.ts:125-132 | sweeping one path keeps its keys and marks exactly its due records notified |
| Notifications.Swept | main.ts:117-132 | a sweep keeps every path and key; it sets `notified` exactly on due records under listed paths and leaves every other record as it was |
| Notifications.SweptWellFormed | main.ts:117-132 | a sweep keeps every inner map a singleton filed under its record's id |
| Notifications.SweepOnlyMarksDue | main.ts:120-132 | a sweep changes only `notified`; it never clears it; it changes it exactly on due records under listed paths, which are all due before `now` |
| Notifications.FiredNeverDueAgain | main.ts:120-132 | a record a sweep fired is not due at any later sweep, at any instant, over any paths |
| Notifications.SweepIdempotent | main.ts:117-132 | a second sweep at the same or an earlier instant finds nothing due and changes nothing |
| Notifications.AlertOf | main.ts:127-130 | defines the alert raised for a record: `new Notification(title, {body})` with the record's title and body |
| Notifications.OnlyKeyReported | main.ts:117-132 | when exactly one record is due, a sweep's alerts are exactly that record's one alert |
| Notifications.NothingReported | main.ts:117-132 | when nothing is due, a sweep raises no alert |
| Notifications.FiredSurvivesReparse | main.ts:92-132 | register, sweep after the due instant, then re-register the same declaration: the record stays notified and is never due again |
| Notifications.SingleRecordSweep | main.ts:117-132 | a path holding one due record, swept over that path: the record is the only one due, it becomes notified, and afterwards nothing is due |
| Notifications.TaxesDeclaration | main.ts:69-90 | the note "Taxes" with header `due: 2024-01-01T00:00:00Z` declares that instant with title "Taxes" and body "Notification from Taxes" |
| Notifications.TaxesRegistered | main.ts:58-107 | registering the note "Taxes" into an empty registry leaves exactly its one record under "Taxes.md" |
| Notifications.TaxesScenario | main.ts:58-132 | registering that note leaves one record, the only one due a day later; the sweep marks it notified, and afterwards nothing is due |
| Notifications.ParseFile | main.ts:68 | a file whose read fails declares nothing |
| Notifications.RegisterAll | main.ts:58-110 | registering a list of files leaves every path that is not among them unchanged |
| Notifications.UpsertLocal | main.ts:92-106 | registering at a path reads the registry only at that path: registries that agree there agree there afterwards |
| Notifications.RegisterAllPerFile | main.ts:58-107 | in a batch of notes with distinct paths, each note's path ends up holding exactly what registering that note alone would leave there, whatever the other notes hold or whether their reads fail |
| Notifications.RegisterAllOrderFree | main.ts:58-110 | any reordering of a batch of notes with distinct paths leaves the same registry |
| Notifications.RegisterAllWellFormed | main.ts:58-110 | registering a list of files keeps the registry invariant |
| Plugin.NotifierPlugin.constructor | main.ts:32-35 | on load, the settings are the stored settings merged over the defaults, and the registry is empty |
| Plugin.NotifierPlugin.Declarations | main.ts:66-101 | a file declares no notification or one: the one `Parse` gives, carrying `notified` forward from the record registered under the same path and id |
| Plugin.NotifierPlugin.ReplaceInner | main.ts:103-106 | the `forEach` leaves the registry as it was when nothing was declared; else the path holds the last declared notification alone |
| Plugin.NotifierPlugin.RegisterFile | main.ts:68-107 | processing one file leaves the registry equal to `Upsert` of the old registry with that file's declaration, and keeps the invariant |
| Plugin.NotifierPlugin.RegisterNotifications | main.ts:58-110 | processing a list of files registers each in turn (`RegisterAll`) and keeps the invariant |
| Plugin.NotifierPlugin.FirePath | main.ts:125-132 | for one path: one alert per due record, with that record's title and body; each record once; exactly the due records become notified |
| Plugin.TaxesAlerts | main.ts:34-135 | a freshly loaded plugin that registers the note "Taxes" and sweeps a day after its due instant raises exactly the alert ("Taxes", "Notification from Taxes"); a second sweep raises none |
| Plugin.NotifierPlugin.NotifyDesktop | main.ts:112-135 | the registry becomes `Swept` of the old one; exactly one alert per record the sweep fires, with its title and body; no record twice; no alert for anything else |

## Left out

- YAML parsing (`parseYaml`) is a field of `Host`, because it is a foreign library. A payload is a map from keys to strings. When the parse throws, or yields no object, the result is "no declaration". Values that are not strings (numbers, dates, booleans, null) are not modelled. Neither is their truthiness.
- Notifications.TitleOf: treats only a missing or empty `title` as falsy, because payload values are strings in this model.
- Notifications.BodyOf: treats only a missing or empty `body` as falsy, for the same reason.
- moment's date parsing, `toISOString` and `isBefore` are replaced by integer instants, a parser field and `<`. Invalid dates are not modelled: moment's invalid instants and time zones are floating-point and library behaviour.
- SHA-1 is a field of `Host`. No collision freedom is assumed.
- The desktop `Notification` object is an appended `Alert(title, body)`. The record's `notification` field, which keeps that object, is not kept.
- The order in which asynchronous reads finish is not modelled. Each file is processed as one atomic step, in list order. `RegisterAllOrderFree` shows that for notes with distinct paths any other completion order leaves the same registry. In the `resolved` handler, `notifyDesktop` has no `await` and runs before any `cachedRead(...).then` callback that the same handler queued. So the sweep on `resolved` never sees that pass's registrations. At startup it sweeps an empty registry, and the first alert waits for the next sweep: the one-minute timer (main.ts:49-51) or a later `resolved` event. The model leaves this interleaving to the caller, which orders its `RegisterNotifications` and `NotifyDesktop` calls.
- Event wiring, `setInterval`, timer teardown and `onunload` are host plumbing.
- The settings tab and the `loadData`/`saveData` persistence are UI and storage. `Stored` gives only the value that `saveSettings` writes.
- `Object.assign` copies extra stored keys, and it copies `null` values. The model covers only the two known keys, each present or absent.
- `console.log` and `printFiles` have no effect on state.
- The order of `Object.keys` within a path is not modelled. The sweep picks keys in an unspecified order. Each inner map holds one record anyway.
- Records are values, not shared objects. The sweep's write `notification.notified = true` updates the registry entry. No other live reference to a record exists in the source.

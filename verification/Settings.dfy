/**
  What a settings file may carry and what the next start makes of it
  (internal/config/config.go, sampling.go, clients.go): the sanitizers a load
  runs, against the validators a save is held to.
*/
module Settings {
  import opened Common
  import opened Fingerprint

  // ---------------------------------------------------------------- sampling

  /** A number as the settings hold one. */
  datatype Number = Finite(value: real) | NotANumber | Infinite

  datatype Sampling = Sampling(temperature: Option<Number>, topP: Option<Number>, topK: Option<Number>,
                               minP: Option<Number>, maxTokens: Option<Number>)

  datatype Range = Range(min: real, max: Option<real>)

  const Temperature := Range(0.0, None)
  const TopP := Range(0.0, Some(1.0))
  const TopK := Range(0.0, Some(1024.0))
  const MinP := Range(0.0, Some(1.0))
  const MaxTokens := Range(1.0, Some(1048576.0))

  predicate Within(v: Option<Number>, r: Range) {
    v.Some? ==> v.value.Finite? && v.value.value >= r.min && (r.max.Some? ==> v.value.value <= r.max.value)
  }

  predicate ValidSampling(s: Sampling) {
    && Within(s.temperature, Temperature) && Within(s.topP, TopP) && Within(s.topK, TopK)
    && Within(s.minP, MinP) && Within(s.maxTokens, MaxTokens)
  }

  /** A value the model server would refuse is as if it had never been set. */
  function Cleared(v: Option<Number>, r: Range): Option<Number> {
    match v
    case None => None
    case Some(NotANumber) => None
    case Some(Infinite) => None
    case Some(Finite(x)) => if x < r.min || (r.max.Some? && x > r.max.value) then None else v
  }

  function Sanitized(s: Sampling): Sampling {
    Sampling(Cleared(s.temperature, Temperature), Cleared(s.topP, TopP), Cleared(s.topK, TopK),
             Cleared(s.minP, MinP), Cleared(s.maxTokens, MaxTokens))
  }

  function Over(base: Option<Number>, over: Option<Number>): Option<Number> {
    if over.Some? then over else base
  }

  /** A model's own parameters laid over the machine's, field by field. */
  function Merged(s: Sampling, over: Sampling): Sampling {
    Sampling(Over(s.temperature, over.temperature), Over(s.topP, over.topP), Over(s.topK, over.topK),
             Over(s.minP, over.minP), Over(s.maxTokens, over.maxTokens))
  }

  /** Nothing a launch could be refused for is left, and nothing it could not be is gone. */
  lemma SanitizedIsValid(s: Sampling)
    ensures ValidSampling(Sanitized(s))
    ensures ValidSampling(s) <==> Sanitized(s) == s
  {
  }

  /** A parameter is kept or unset each on its own. */
  lemma SanitizingIsFieldByField(s: Sampling)
    ensures var t := Sanitized(s);
            && t.temperature == (if Within(s.temperature, Temperature) then s.temperature else None)
            && t.topP == (if Within(s.topP, TopP) then s.topP else None)
            && t.topK == (if Within(s.topK, TopK) then s.topK else None)
            && t.minP == (if Within(s.minP, MinP) then s.minP else None)
            && t.maxTokens == (if Within(s.maxTokens, MaxTokens) then s.maxTokens else None)
  {
  }

  /** The model's own parameter wins where it has one, and the machine's stands where it has none. */
  lemma TheModelsOwnWins(s: Sampling, over: Sampling)
    ensures var t := Merged(s, over);
            && t.temperature == (if over.temperature.Some? then over.temperature else s.temperature)
            && t.topP == (if over.topP.Some? then over.topP else s.topP)
            && t.topK == (if over.topK.Some? then over.topK else s.topK)
            && t.minP == (if over.minP.Some? then over.minP else s.minP)
            && t.maxTokens == (if over.maxTokens.Some? then over.maxTokens else s.maxTokens)
    ensures Merged(s, Unset) == s && Merged(Unset, s) == s
    ensures forall u :: Merged(Merged(s, over), u) == Merged(s, Merged(over, u))
  {
  }

  // ------------------------------------------------------- per-model settings

  datatype ModelSettings = ModelSettings(
    mergeSystem: bool, pinned: bool, served: int, sampling: Sampling, noTranscript: bool)

  type Models = map<string, ModelSettings>

  const MaxModels := 256
  const MaxContextLength: int := 0x80_0000
  const Unset := Sampling(None, None, None, None, None)

  predicate IsZero(m: ModelSettings) {
    !m.mergeSystem && !m.pinned && m.served == 0 && m.sampling == Unset && !m.noTranscript
  }

  predicate ComponentChar(c: char) {
    'a' <= c <= 'z' || 'A' <= c <= 'Z' || '0' <= c <= '9' || c == '-' || c == '_' || c == '.'
  }

  predicate ValidComponent(s: string) {
    s != "" && s != "." && s != ".." && |s| <= 96 && forall c :: c in s ==> ComponentChar(c)
  }

  predicate ValidRepoId(id: string) {
    exists cut ::
      && 0 <= cut < |id| && id[cut] == '/' && '/' !in id[..cut]
      && ValidComponent(id[..cut]) && ValidComponent(id[cut + 1..])
  }

  function Cleaned(m: ModelSettings): ModelSettings {
    m.(sampling := Sanitized(m.sampling), served := if m.served < 0 || m.served > MaxContextLength then 0 else m.served)
  }

  predicate ValidSettings(m: ModelSettings) {
    ValidSampling(m.sampling) && 0 <= m.served <= MaxContextLength
  }

  predicate Names(models: Models, id: string) {
    exists k :: k in models && FoldRepoId(k) == FoldRepoId(id)
  }

  /** What a save is held to. */
  predicate ValidModels(models: Models) {
    && |models| <= MaxModels
    && (forall k :: k in models ==> ValidRepoId(k) && ValidSettings(models[k]))
    && (forall k, l :: k in models && l in models && FoldRepoId(k) == FoldRepoId(l) ==> k == l)
  }

  predicate Usable(models: Models, id: string)
    requires id in models
  {
    ValidRepoId(id) && !IsZero(Cleaned(models[id]))
  }

  /** One id: the first spelling of a model with something to say, while there is room. */
  function KeepModel(models: Models, id: string, kept: Models): Models
    requires id in models
  {
    if !Usable(models, id) || Names(kept, id) || |kept| >= MaxModels then kept else kept[id := Cleaned(models[id])]
  }

  /** What a load keeps, going through the ids in the order given. */
  function KeepModels(models: Models, ids: seq<string>, kept: Models): Models
    requires forall id :: id in ids ==> id in models
    decreases |ids|
  {
    if ids == [] then kept
    else
      var id := ids[0];
      assert id in ids;
      KeepModels(models, ids[1..], KeepModel(models, id, kept))
  }

  /** ids is the keys of the map in some order; the program sorts them, and nothing here depends on how. */
  predicate Lists(ids: seq<string>, models: Models) {
    (forall id :: id in ids ==> id in models) && (forall k :: k in models ==> k in ids)
    && (forall i, j :: 0 <= i < j < |ids| ==> ids[i] != ids[j])
  }

  lemma CleanedIsValid(m: ModelSettings)
    ensures ValidSettings(Cleaned(m)) && (ValidSettings(m) <==> Cleaned(m) == m)
  {
    SanitizedIsValid(m.sampling);
  }

  /** Every clause a save is held to is true of what a load keeps. */
  lemma {:induction false} KeptModelsAreValid(models: Models, ids: seq<string>, kept: Models)
    requires forall id :: id in ids ==> id in models
    requires ValidModels(kept)
    ensures ValidModels(KeepModels(models, ids, kept))
    decreases |ids|
  {
    if ids != [] {
      var id := ids[0];
      assert id in ids;
      assert forall i :: i in ids[1..] ==> i in ids;
      var next := KeepModel(models, id, kept);
      if next != kept {
        CleanedIsValid(models[id]);
        assert id !in kept;
        assert |next| == |kept| + 1;
      }
      KeptModelsAreValid(models, ids[1..], next);
    }
  }

  /** What is kept is the file's own, cleaned; below the ceiling no usable model goes unnamed. */
  lemma {:induction false} NothingUsableIsLost(models: Models, ids: seq<string>, kept: Models)
    requires forall id :: id in ids ==> id in models
    requires forall k :: k in kept ==> k in models && kept[k] == Cleaned(models[k])
    ensures var after := KeepModels(models, ids, kept);
            && (forall k :: k in kept ==> k in after)
            && (forall k :: k in after ==> k in models && after[k] == Cleaned(models[k]))
            && (|after| < MaxModels ==> forall id :: id in ids && Usable(models, id) ==> Names(after, id))
    decreases |ids|
  {
    if ids != [] {
      var id := ids[0];
      assert id in ids;
      assert forall i :: i in ids[1..] ==> i in ids;
      var next := KeepModel(models, id, kept);
      NothingUsableIsLost(models, ids[1..], next);
      var after := KeepModels(models, ids, kept);
      assert after == KeepModels(models, ids[1..], next);
      Grown(kept, after);
      if Usable(models, id) && |after| < MaxModels {
        if Names(kept, id) {
          var k :| k in kept && FoldRepoId(k) == FoldRepoId(id);
          assert k in after;
        } else {
          assert id in next && id in after;
        }
      }
    }
  }

  lemma Grown(kept: Models, after: Models)
    requires forall k :: k in kept ==> k in after
    ensures |kept| <= |after|
  {
    assert kept.Keys <= after.Keys;
    assert |after.Keys - kept.Keys| == |after.Keys| - |kept.Keys|;
  }

  predicate Settled(models: Models) {
    ValidModels(models) && forall k :: k in models ==> !IsZero(models[k])
  }

  lemma {:induction false} KeptModelsAreSettled(models: Models, ids: seq<string>, kept: Models)
    requires (forall id :: id in ids ==> id in models) && Settled(kept)
    ensures Settled(KeepModels(models, ids, kept))
    decreases |ids|
  {
    if ids != [] {
      var id := ids[0];
      assert id in ids;
      assert forall i :: i in ids[1..] ==> i in ids;
      var next := KeepModel(models, id, kept);
      if next != kept {
        CleanedIsValid(models[id]);
        assert id !in kept;
        assert |next| == |kept| + 1;
      }
      KeptModelsAreSettled(models, ids[1..], next);
    }
  }

  lemma NextIsNew(done: seq<string>, ids: seq<string>)
    requires ids != [] && forall i, j :: 0 <= i < j < |done + ids| ==> (done + ids)[i] != (done + ids)[j]
    ensures ids[0] !in done
    ensures (done + [ids[0]]) + ids[1..] == done + ids
  {
    forall i | 0 <= i < |done| ensures done[i] != ids[0] {
      assert (done + ids)[i] != (done + ids)[|done|];
    }
  }

  lemma SettledSoFar(models: Models, done: seq<string>, id: string, kept: Models)
    requires Settled(models) && id in models && id !in done
    requires kept == map k | k in models && k in done :: models[k]
    ensures Usable(models, id) && !Names(kept, id) && |kept| < MaxModels && Cleaned(models[id]) == models[id]
    ensures kept[id := models[id]] == map k | k in models && k in done + [id] :: models[k]
  {
    CleanedIsValid(models[id]);
    assert id !in kept && kept.Keys <= models.Keys && kept.Keys != models.Keys;
    Fewer(kept.Keys, models.Keys);
  }

  lemma {:induction false} SettledStays(models: Models, ids: seq<string>, done: seq<string>, kept: Models)
    requires Settled(models) && Lists(done + ids, models)
    requires kept == map k | k in models && k in done :: models[k]
    ensures KeepModels(models, ids, kept) == models
    decreases |ids|
  {
    var all := done + ids;
    assert forall id :: id in ids ==> id in all;
    if ids == [] {
      assert all == done;
    } else {
      var id := ids[0];
      assert id in all;
      NextIsNew(done, ids);
      SettledSoFar(models, done, id, kept);
      hide Usable, Names, Settled, Cleaned;
      SettledStays(models, ids[1..], done + [id], kept[id := models[id]]);
    }
  }

  lemma Fewer(a: set<string>, b: set<string>)
    requires a < b
    ensures |a| < |b|
  {
    assert |b - a| == |b| - |a|;
  }

  /** A second load of what the first kept changes nothing, in whatever order either goes. */
  lemma SanitizingModelsTwiceIsOnce(models: Models, ids: seq<string>, again: seq<string>)
    requires Lists(ids, models) && Lists(again, KeepModels(models, ids, map[]))
    ensures ValidModels(KeepModels(models, ids, map[]))
    ensures KeepModels(KeepModels(models, ids, map[]), again, map[]) == KeepModels(models, ids, map[])
  {
    var kept := KeepModels(models, ids, map[]);
    KeptModelsAreSettled(models, ids, map[]);
    assert [] + again == again;
    SettledStays(kept, again, [], map[]);
  }

  // ------------------------------------------------------------ paired clients

  /** A paired client: the fingerprint it carries, and whether its name passes the name grammar. */
  datatype Client = Client(spki: string, nameOk: bool)

  type Clients = map<string, Client>

  const MaxClients := 64

  predicate ValidClient(id: string, c: Client) {
    ValidFingerprint(id) && c.spki == id && c.nameOk
  }

  predicate ValidClients(clients: Clients) {
    |clients| <= MaxClients && forall id :: id in clients ==> ValidClient(id, clients[id])
  }

  function KeepClient(clients: Clients, id: string, kept: Clients): Clients
    requires id in clients
  {
    if |kept| >= MaxClients || !ValidClient(id, clients[id]) then kept else kept[id := clients[id]]
  }

  function KeepClients(clients: Clients, ids: seq<string>, kept: Clients): Clients
    requires forall id :: id in ids ==> id in clients
    decreases |ids|
  {
    if ids == [] then kept
    else
      var id := ids[0];
      assert id in ids;
      KeepClients(clients, ids[1..], KeepClient(clients, id, kept))
  }

  predicate ListsClients(ids: seq<string>, clients: Clients) {
    (forall id :: id in ids ==> id in clients) && (forall k :: k in clients ==> k in ids)
    && (forall i, j :: 0 <= i < j < |ids| ==> ids[i] != ids[j])
  }

  lemma {:induction false} KeptClientsAreValid(clients: Clients, ids: seq<string>, kept: Clients)
    requires (forall id :: id in ids ==> id in clients) && ValidClients(kept)
    ensures ValidClients(KeepClients(clients, ids, kept))
    decreases |ids|
  {
    hide ValidClient;
    if ids != [] {
      var id := ids[0];
      assert id in ids;
      assert forall i :: i in ids[1..] ==> i in ids;
      KeptClientsAreValid(clients, ids[1..], KeepClient(clients, id, kept));
    }
  }

  /** Each client kept is the file's own, and below the ceiling every valid one is kept. */
  lemma {:induction false} NoValidClientIsLost(clients: Clients, ids: seq<string>, kept: Clients)
    requires (forall id :: id in ids ==> id in clients) && forall id :: id in kept ==> id in clients
    requires forall id :: id in kept ==> kept[id] == clients[id]
    ensures var all := KeepClients(clients, ids, kept);
            && (forall id :: id in all ==> id in clients && all[id] == clients[id])
            && kept.Keys <= all.Keys
            && (|all| < MaxClients ==> forall id :: id in ids && ValidClient(id, clients[id]) ==> id in all)
    decreases |ids|
  {
    hide ValidClient;
    if ids != [] {
      var id := ids[0];
      assert id in ids;
      assert forall i :: i in ids[1..] ==> i in ids;
      assert forall i :: i in ids ==> i == id || i in ids[1..];
      var next := KeepClient(clients, id, kept);
      NoValidClientIsLost(clients, ids[1..], next);
      var all := KeepClients(clients, ids[1..], next);
      Few(next.Keys, all.Keys);
    }
  }

  lemma Few(a: set<string>, b: set<string>)
    requires a <= b
    ensures |a| <= |b|
  {
    assert |b - a| == |b| - |a|;
  }

  lemma {:induction false} ValidClientsStay(clients: Clients, ids: seq<string>, done: seq<string>, kept: Clients)
    requires ValidClients(clients) && ListsClients(done + ids, clients)
    requires kept == map k | k in clients && k in done :: clients[k]
    ensures KeepClients(clients, ids, kept) == clients
    decreases |ids|
  {
    hide ValidClient;
    var all := done + ids;
    assert forall id :: id in ids ==> id in all;
    if ids == [] {
      assert all == done;
    } else {
      var id := ids[0];
      assert id in all;
      NextIsNew(done, ids);
      assert id in clients && id !in kept;
      assert kept.Keys <= clients.Keys && kept.Keys != clients.Keys;
      Fewer(kept.Keys, clients.Keys);
      assert kept[id := clients[id]] == map k | k in clients && k in done + [id] :: clients[k];
      ValidClientsStay(clients, ids[1..], done + [id], kept[id := clients[id]]);
    }
  }

  // ----------------------------------------------------- the rest of the file

  datatype Config = Config(
    sampling: Sampling, models: Models, preload: seq<string>, clients: Clients,
    statsMonths: int, statsMaxBytes: int, idleThreshold: int, selfTestThreshold: int,
    updateHours: int, maxResident: int, eviction: bool, graceSec: int, maxWaitSec: int, idleTimeout: int,
    apiKey: string, logLevel: string, tlsPort: int, port: int)

  const NoTlsListener := -1

  function GraceSeconds(c: Config): int {
    if c.graceSec <= 0 then 120 else c.graceSec
  }

  function MaxWaitSeconds(c: Config): int {
    if c.maxWaitSec <= 0 then 300 else c.maxWaitSec
  }

  predicate ValidGrace(c: Config) {
    && 0 <= c.graceSec <= 3600 && 0 <= c.maxWaitSec <= 3600
    && (c.eviction && c.idleTimeout > 0 ==> GraceSeconds(c) <= c.idleTimeout)
    && (c.eviction ==> GraceSeconds(c) <= MaxWaitSeconds(c))
  }

  /** The four repairs, in the order they are made. */
  function RepairedGrace(c: Config): Config {
    var c := if c.graceSec < 0 || c.graceSec > 3600 then c.(graceSec := 120) else c;
    var c := if c.maxWaitSec < 0 || c.maxWaitSec > 3600 then c.(maxWaitSec := 300) else c;
    var tooLong := c.eviction && c.idleTimeout > 0 && GraceSeconds(c) > c.idleTimeout;
    var c := if tooLong then c.(graceSec := c.idleTimeout) else c;
    if c.eviction && MaxWaitSeconds(c) < GraceSeconds(c) then c.(maxWaitSec := GraceSeconds(c)) else c
  }

  predicate UsableThreshold(s: int) {
    s == 0 || 60 <= s <= 86400
  }

  predicate ValidFigures(c: Config) {
    && 1 <= c.statsMonths <= 120 && 0xA0_0000 <= c.statsMaxBytes <= 0x2_8000_0000
    && UsableThreshold(c.idleThreshold) && UsableThreshold(c.selfTestThreshold)
    && (c.updateHours == 0 || 1 <= c.updateHours <= 720) && c.maxResident >= 0
    && |c.preload| <= MaxModels && |c.apiKey| <= 512
    && (c.logLevel == "" || c.logLevel == "sparse" || c.logLevel == "detailed")
  }

  /** The key cut to size at the last whole character, or where it is when there is none. */
  function TrimmedKey(key: string, whole: string -> bool): string {
    if |key| <= 512 then key
    else
      var n := LastWhole(key, 512, whole);
      if n == 0 then key[..512] else key[..n]
  }

  function LastWhole(key: string, n: nat, whole: string -> bool): nat
    requires n <= |key|
    ensures LastWhole(key, n, whole) <= n
  {
    if n == 0 || whole(key[..n]) then n else LastWhole(key, n - 1, whole)
  }

  function RepairedFigures(c: Config, whole: string -> bool): Config {
    c.(statsMonths := if c.statsMonths < 1 || c.statsMonths > 120 then 6 else c.statsMonths,
       statsMaxBytes := if c.statsMaxBytes < 0xA0_0000 || c.statsMaxBytes > 0x2_8000_0000 then 0xC80_0000
           else c.statsMaxBytes,
       idleThreshold := if UsableThreshold(c.idleThreshold) then c.idleThreshold else 0,
       selfTestThreshold := if UsableThreshold(c.selfTestThreshold) then c.selfTestThreshold else 0,
       updateHours := if c.updateHours == 0 || 1 <= c.updateHours <= 720 then c.updateHours else 0,
       maxResident := if c.maxResident >= 0 then c.maxResident else 0,
       preload := if |c.preload| <= MaxModels then c.preload else c.preload[..MaxModels],
       apiKey := TrimmedKey(c.apiKey, whole),
       logLevel := if c.logLevel == "" || c.logLevel == "sparse" || c.logLevel == "detailed" then c.logLevel else "")
  }

  predicate ValidTlsPort(c: Config) {
    (c.tlsPort == NoTlsListener || 0 <= c.tlsPort <= 65535) && c.tlsPort != c.port
  }

  function NarrowedTlsPort(c: Config): Config {
    if c.tlsPort == NoTlsListener || c.tlsPort == 0 then c
    else if c.tlsPort == c.port || c.tlsPort < 0 || c.tlsPort > 65535 then c.(tlsPort := NoTlsListener)
    else c
  }

  /** The sanitizers a load runs, with the orders the two maps are gone through in. */
  function Loaded(c: Config, modelIds: seq<string>, clientIds: seq<string>, whole: string -> bool): Config
    requires Lists(modelIds, c.models) && ListsClients(clientIds, c.clients)
  {
    var c := c.(sampling := Sanitized(c.sampling), models := KeepModels(c.models, modelIds, map[]),
                clients := KeepClients(c.clients, clientIds, map[]));
    NarrowedTlsPort(RepairedGrace(RepairedFigures(c, whole)))
  }

  /** Every clause of the validator that a load repairs. */
  predicate Valid(c: Config) {
    ValidSampling(c.sampling) && ValidModels(c.models) && ValidClients(c.clients) && ValidGrace(c) && ValidFigures(c)
  }

  lemma GraceRepairs(c: Config)
    ensures ValidGrace(RepairedGrace(c))
    ensures ValidGrace(c) <==> RepairedGrace(c) == c
  {
  }

  /**
    What the repairs leave in force: an interval out of range is its default,
    a grace longer than the idle timeout is that timeout, and a wait shorter
    than the grace is the grace; with the switch off neither is held to
    anything else.
  */
  lemma GraceRepairsTo(c: Config)
    ensures var g := RepairedGrace(c);
            var grace := if 1 <= c.graceSec <= 3600 then c.graceSec else 120;
            var wait := if 1 <= c.maxWaitSec <= 3600 then c.maxWaitSec else 300;
            && GraceSeconds(g) == (if c.eviction && 0 < c.idleTimeout < grace then c.idleTimeout else grace)
            && MaxWaitSeconds(g) == (if c.eviction && wait < GraceSeconds(g) then GraceSeconds(g) else wait)
            && (0 <= c.graceSec <= 3600 && GraceSeconds(g) == grace ==> g.graceSec == c.graceSec)
            && (0 <= c.maxWaitSec <= 3600 && MaxWaitSeconds(g) == wait ==> g.maxWaitSec == c.maxWaitSec)
  {
  }

  /** A figure in its range is the file's, and one out of it is its default; nothing else is touched. */
  lemma FiguresRepairTo(c: Config, whole: string -> bool)
    ensures var f := RepairedFigures(c, whole);
            && f.statsMonths == (if 1 <= c.statsMonths <= 120 then c.statsMonths else 6)
            && f.statsMaxBytes == (if 10 * 1048576 <= c.statsMaxBytes <= 10240 * 1048576 then c.statsMaxBytes
                                   else 200 * 1048576)
            && f.idleThreshold == (if 60 <= c.idleThreshold <= 86400 then c.idleThreshold else 0)
            && f.selfTestThreshold == (if 60 <= c.selfTestThreshold <= 86400 then c.selfTestThreshold else 0)
            && f.updateHours == (if 1 <= c.updateHours <= 720 then c.updateHours else 0)
            && f.maxResident == (if c.maxResident >= 0 then c.maxResident else 0)
            && f.preload <= c.preload && (|f.preload| == |c.preload| || |f.preload| == 256)
            && f.logLevel == (if c.logLevel in {"", "sparse", "detailed"} then c.logLevel else "")
            && f.sampling == c.sampling && f.models == c.models && f.clients == c.clients
            && f.eviction == c.eviction && f.graceSec == c.graceSec && f.maxWaitSec == c.maxWaitSec
            && f.idleTimeout == c.idleTimeout && f.tlsPort == c.tlsPort && f.port == c.port
  {
  }

  /** A key too long is cut to its longest whole prefix that fits, or at the ceiling when none is whole. */
  lemma TheKeyIsCutTo(key: string, whole: string -> bool)
    ensures |key| <= 512 ==> TrimmedKey(key, whole) == key
    ensures |key| > 512 ==>
              var t := TrimmedKey(key, whole);
              && t <= key && |t| <= 512 && t != ""
              && (whole(t) || (|t| == 512 && forall n :: 0 < n <= 512 ==> !whole(key[..n])))
              && forall n :: |t| < n <= 512 ==> !whole(key[..n])
  {
    if |key| > 512 {
      LastWholeIs(key, 512, whole);
    }
  }

  lemma {:induction false} LastWholeIs(key: string, n: nat, whole: string -> bool)
    requires n <= |key|
    ensures var k := LastWhole(key, n, whole);
            (k == 0 || whole(key[..k])) && forall m :: k < m <= n ==> !whole(key[..m])
  {
    if n > 0 && !whole(key[..n]) {
      LastWholeIs(key, n - 1, whole);
    }
  }

  lemma FiguresRepair(c: Config, whole: string -> bool)
    ensures ValidFigures(RepairedFigures(c, whole))
    ensures ValidFigures(c) <==> RepairedFigures(c, whole) == c
    ensures c.apiKey != "" ==> RepairedFigures(c, whole).apiKey != ""
    ensures RepairedFigures(c, whole).apiKey <= c.apiKey
  {
  }

  lemma TlsPortNarrows(c: Config)
    requires 1 <= c.port <= 65535
    ensures ValidTlsPort(NarrowedTlsPort(c))
    ensures ValidTlsPort(c) <==> NarrowedTlsPort(c) == c
  {
  }

  /** A TLS port that is none, any or a usable other than the server's stands; any other is none. */
  lemma TlsPortNarrowsTo(c: Config)
    ensures NarrowedTlsPort(c).tlsPort ==
            if c.tlsPort == 0 || (0 < c.tlsPort <= 65535 && c.tlsPort != c.port) then c.tlsPort else -1
  {
  }

  lemma RepairsKeepTheRest(c: Config, whole: string -> bool)
    ensures var f := RepairedFigures(c, whole);
            && f.sampling == c.sampling && f.models == c.models && f.clients == c.clients && f.port == c.port
    ensures var g := RepairedGrace(c); g == c.(graceSec := g.graceSec, maxWaitSec := g.maxWaitSec)
    ensures NarrowedTlsPort(c) == c.(tlsPort := NarrowedTlsPort(c).tlsPort)
  {
  }

  /** The three maps and lists a load filters, and all the rest repaired. */
  lemma LoadedParts(c: Config, modelIds: seq<string>, clientIds: seq<string>, whole: string -> bool)
    requires Lists(modelIds, c.models) && ListsClients(clientIds, c.clients)
    ensures var d := Loaded(c, modelIds, clientIds, whole);
            && d.sampling == Sanitized(c.sampling) && d.models == KeepModels(c.models, modelIds, map[])
            && d.clients == KeepClients(c.clients, clientIds, map[]) && d.port == c.port
            && ValidFigures(d) && ValidGrace(d) && d.apiKey == TrimmedKey(c.apiKey, whole)
            && (1 <= c.port <= 65535 ==> ValidTlsPort(d))
  {
    hide RepairedGrace, NarrowedTlsPort, Sanitized, TrimmedKey, KeepModels, KeepClients, UsableThreshold;
    var c1 := c.(sampling := Sanitized(c.sampling), models := KeepModels(c.models, modelIds, map[]),
                 clients := KeepClients(c.clients, clientIds, map[]));
    var c2 := RepairedFigures(c1, whole);
    var c3 := RepairedGrace(c2);
    FiguresRepair(c1, whole);
    GraceRepairs(c2);
    RepairsKeepTheRest(c2, whole);
    RepairsKeepTheRest(c3, whole);
    if 1 <= c.port <= 65535 {
      TlsPortNarrows(c3);
    }
  }

  /** Whatever a file carries, what a load makes of it passes the validator, and a key is never repaired away. */
  lemma LoadedIsValid(c: Config, modelIds: seq<string>, clientIds: seq<string>, whole: string -> bool)
    requires Lists(modelIds, c.models) && ListsClients(clientIds, c.clients)
    ensures Valid(Loaded(c, modelIds, clientIds, whole))
    ensures 1 <= c.port <= 65535 ==> ValidTlsPort(Loaded(c, modelIds, clientIds, whole))
    ensures c.apiKey != "" ==> Loaded(c, modelIds, clientIds, whole).apiKey != ""
  {
    hide Loaded, ValidSampling, ValidModels, ValidClients, ValidFigures, ValidGrace, ValidTlsPort, Sanitized,
        KeepModels, KeepClients;
    LoadedParts(c, modelIds, clientIds, whole);
    SanitizedIsValid(c.sampling);
    NoModels();
    KeptModelsAreValid(c.models, modelIds, map[]);
    KeptClientsAreValid(c.clients, clientIds, map[]);
  }

  lemma NoModels()
    ensures ValidModels(map[]) && ValidClients(map[]) && Settled(map[])
  {
  }

  /** And loading that again changes nothing. */
  lemma LoadingTwiceIsOnce(c: Config, modelIds: seq<string>, clientIds: seq<string>, whole: string -> bool,
                           modelsAgain: seq<string>, clientsAgain: seq<string>)
    requires Lists(modelIds, c.models) && ListsClients(clientIds, c.clients) && 1 <= c.port <= 65535
    requires var d := Loaded(c, modelIds, clientIds, whole);
             Lists(modelsAgain, d.models) && ListsClients(clientsAgain, d.clients)
    ensures var d := Loaded(c, modelIds, clientIds, whole); Loaded(d, modelsAgain, clientsAgain, whole) == d
  {
    var d := Loaded(c, modelIds, clientIds, whole);
    LoadedIsValid(c, modelIds, clientIds, whole);
    LoadedParts(c, modelIds, clientIds, whole);
    SanitizingModelsTwiceIsOnce(c.models, modelIds, modelsAgain);
    assert [] + clientsAgain == clientsAgain;
    ValidClientsStay(d.clients, clientsAgain, [], map[]);
    ValidStays(d, modelsAgain, clientsAgain, whole);
  }

  lemma ValidStays(d: Config, modelIds: seq<string>, clientIds: seq<string>, whole: string -> bool)
    requires Lists(modelIds, d.models) && ListsClients(clientIds, d.clients) && 1 <= d.port <= 65535
    requires Valid(d) && ValidTlsPort(d)
    requires KeepModels(d.models, modelIds, map[]) == d.models && KeepClients(d.clients, clientIds, map[]) == d.clients
    ensures Loaded(d, modelIds, clientIds, whole) == d
  {
    SanitizedIsValid(d.sampling);
    FiguresRepair(d, whole);
    GraceRepairs(d);
    TlsPortNarrows(d);
    hide RepairedFigures, RepairedGrace, NarrowedTlsPort, Sanitized, ValidSampling, ValidModels, ValidClients, Lists,
        ListsClients;
    assert d.(sampling := Sanitized(d.sampling), models := KeepModels(d.models, modelIds, map[]),
              clients := KeepClients(d.clients, clientIds, map[])) == d;
  }

  // ---------------------------------------------- the sampling of a launch

  /** EffectiveSampling, going through the model ids in the order given: the first that names the model. */
  function EffectiveSampling(c: Config, ids: seq<string>, repo: string): Sampling
    requires forall id :: id in ids ==> id in c.models
  {
    if ids == [] then c.sampling
    else
      assert ids[0] in ids;
      if FoldRepoId(ids[0]) == FoldRepoId(repo) then Merged(c.sampling, c.models[ids[0]].sampling)
      else EffectiveSampling(c, ids[1..], repo)
  }

  lemma MergedIsValid(s: Sampling, over: Sampling)
    requires ValidSampling(s) && ValidSampling(over)
    ensures ValidSampling(Merged(s, over))
  {
  }

  /** An entry that says nothing is the zero one, and cleaning keeps all of an entry but what no launch would take. */
  lemma AnEntryIsCleanedTo(m: ModelSettings)
    ensures IsZero(m) <==> m == ModelSettings(false, false, 0, Sampling(None, None, None, None, None), false)
    ensures var t := Cleaned(m);
            && t.mergeSystem == m.mergeSystem && t.pinned == m.pinned && t.noTranscript == m.noTranscript
            && t.sampling == Sanitized(m.sampling)
            && t.served == (if 0 <= m.served <= MaxContextLength then m.served else 0)
  {
  }

  lemma {:induction false} EffectiveIsOneModels(c: Config, ids: seq<string>, repo: string)
    requires ValidModels(c.models) && forall id :: id in ids ==> id in c.models
    ensures var e := EffectiveSampling(c, ids, repo);
            && (forall id :: id in ids && FoldRepoId(id) == FoldRepoId(repo) ==>
                e == Merged(c.sampling, c.models[id].sampling))
            && ((forall id :: id in ids ==> FoldRepoId(id) != FoldRepoId(repo)) ==> e == c.sampling)
    decreases |ids|
  {
    hide ValidSettings, ValidRepoId;
    if ids != [] {
      assert ids[0] in ids;
      assert forall id :: id in ids ==> id == ids[0] || id in ids[1..];
      EffectiveIsOneModels(c, ids[1..], repo);
    }
  }

  /**
    What a model server is launched with after a load is a sampling it accepts,
    and it is the same in whatever order the models are gone through: its own
    entry's parameters over the machine's, field by field.
  */
  lemma EffectiveSamplingIsValid(c: Config, ids: seq<string>, again: seq<string>, repo: string)
    requires Valid(c) && Lists(ids, c.models) && Lists(again, c.models)
    ensures ValidSampling(EffectiveSampling(c, ids, repo))
    ensures EffectiveSampling(c, ids, repo) == EffectiveSampling(c, again, repo)
  {
    hide ValidSampling, Merged, EffectiveSampling, ValidFigures, ValidGrace, ValidClients;
    EffectiveIsOneModels(c, ids, repo);
    EffectiveIsOneModels(c, again, repo);
    if id :| id in c.models && FoldRepoId(id) == FoldRepoId(repo) {
      assert ValidSettings(c.models[id]);
      MergedIsValid(c.sampling, c.models[id].sampling);
    }
  }
}

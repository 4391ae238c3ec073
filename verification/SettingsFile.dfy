/**
  The sanitizers as a load runs them, each rewriting the settings it was
  handed (internal/config/config.go, clients.go). Each is held to its function
  of Settings, and the whole sequence to Loaded.
*/
module SettingsFile {
  import opened Common
  import opened Settings

  /** seen is the folded names of the models kept. */
  ghost predicate HaveSeen(kept: Models, seen: set<string>) {
    forall f :: f in seen <==> exists k :: k in kept && FoldRepoId(k) == f
  }

  lemma NamesSeen(kept: Models, seen: set<string>, id: string, ms: ModelSettings)
    requires HaveSeen(kept, seen)
    ensures FoldRepoId(id) in seen <==> Names(kept, id)
    ensures HaveSeen(kept[id := ms], seen + {FoldRepoId(id)})
  {
    var after := kept[id := ms];
    forall f ensures f in seen + {FoldRepoId(id)} <==> exists k :: k in after && FoldRepoId(k) == f {
      if f in seen {
        var k :| k in kept && FoldRepoId(k) == f;
        assert k in after;
      } else if f == FoldRepoId(id) {
        assert id in after;
      }
    }
  }

  lemma OneMoreModel(models: Models, ids: seq<string>, i: nat, kept: Models)
    requires i < |ids| && forall id :: id in ids[i..] ==> id in models
    ensures ids[i] in models && forall id :: id in ids[i + 1..] ==> id in models
    ensures KeepModels(models, ids[i..], kept) == KeepModels(models, ids[i + 1..], KeepModel(models, ids[i], kept))
  {
    hide KeepModel;
    assert ids[i..][0] == ids[i] && ids[i..][1..] == ids[i + 1..];
    assert ids[i] in ids[i..];
    assert forall id :: id in ids[i + 1..] ==> id in ids[i..];
  }

  class Loading {
    var c: Config

    constructor (parsed: Config)
      ensures c == parsed
    {
      c := parsed;
    }

    /** Going through the model ids in order, the first spelling of each model is kept. */
    method SanitizeModels(ids: seq<string>)
      requires Lists(ids, c.models)
      modifies this
      ensures c == old(c).(models := KeepModels(old(c).models, ids, map[]))
    {
      var models, kept: Models, seen := c.models, map[], {};
      var i := 0;
      while i < |ids|
        invariant 0 <= i <= |ids| && c == old(c)
        invariant forall id :: id in ids[i..] ==> id in models
        invariant KeepModels(models, ids[i..], kept) == KeepModels(models, ids, map[])
        invariant HaveSeen(kept, seen)
      {
        hide ValidRepoId, KeepModels, Cleaned, IsZero, HaveSeen, Names;
        var id := ids[i];
        OneMoreModel(models, ids, i, kept);
        NamesSeen(kept, seen, id, Cleaned(models[id]));
        var ms := Cleaned(models[id]);
        if ValidRepoId(id) && FoldRepoId(id) !in seen && |kept| < MaxModels && !IsZero(ms) {
          seen := seen + {FoldRepoId(id)};
          kept := kept[id := ms];
        }
        i := i + 1;
      }
      assert ids[i..] == [];
      assert KeepModels(models, [], kept) == kept;
      c := c.(models := kept);
    }

    method SanitizeClients(ids: seq<string>)
      requires ListsClients(ids, c.clients)
      modifies this
      ensures c == old(c).(clients := KeepClients(old(c).clients, ids, map[]))
    {
      var clients, kept: Clients := c.clients, map[];
      var i := 0;
      while i < |ids|
        invariant 0 <= i <= |ids|
        invariant forall id :: id in ids[i..] ==> id in clients
        invariant KeepClients(clients, ids[i..], kept) == KeepClients(clients, ids, map[])
      {
        hide ValidClient;
        var id := ids[i];
        assert ids[i..][0] == id && ids[i..][1..] == ids[i + 1..];
        if |kept| < MaxClients && ValidClient(id, clients[id]) {
          kept := kept[id := clients[id]];
        }
        i := i + 1;
      }
      assert ids[i..] == [];
      c := c.(clients := kept);
    }

    method SanitizePreload()
      modifies this
      ensures c == old(c).(
                preload := if |old(c).preload| <= MaxModels then old(c).preload else old(c).preload[..MaxModels])
    {
      if |c.preload| > MaxModels {
        c := c.(preload := c.preload[..MaxModels]);
      }
    }

    method SanitizeStats()
      modifies this
      ensures c == old(c).(
                statsMonths := if old(c).statsMonths < 1 || old(c).statsMonths > 120 then 6 else old(c).statsMonths,
                statsMaxBytes :=
                  if old(c).statsMaxBytes < 0xA0_0000 || old(c).statsMaxBytes > 0x2_8000_0000 then 0xC80_0000
                  else old(c).statsMaxBytes)
    {
      if c.statsMonths < 1 || c.statsMonths > 120 {
        c := c.(statsMonths := 6);
      }
      if c.statsMaxBytes < 0xA0_0000 || c.statsMaxBytes > 0x2_8000_0000 {
        c := c.(statsMaxBytes := 0xC80_0000);
      }
    }

    method SanitizeIdleThreshold()
      modifies this
      ensures c == old(c).(
                idleThreshold := if UsableThreshold(old(c).idleThreshold) then old(c).idleThreshold else 0,
                selfTestThreshold := if UsableThreshold(old(c).selfTestThreshold) then old(c).selfTestThreshold else 0)
    {
      if !UsableThreshold(c.idleThreshold) {
        c := c.(idleThreshold := 0);
      }
      if !UsableThreshold(c.selfTestThreshold) {
        c := c.(selfTestThreshold := 0);
      }
    }

    method SanitizeUpdatesAndBudget()
      modifies this
      ensures c == old(c).(
                updateHours :=
                  if old(c).updateHours == 0 || 1 <= old(c).updateHours <= 720 then old(c).updateHours else 0,
                maxResident := if old(c).maxResident >= 0 then old(c).maxResident else 0)
    {
      if c.updateHours != 0 && (c.updateHours < 1 || c.updateHours > 720) {
        c := c.(updateHours := 0);
      }
      if c.maxResident < 0 {
        c := c.(maxResident := 0);
      }
    }

    method SanitizeLogLevel()
      modifies this
      ensures c == old(c).(
                logLevel :=
                  if old(c).logLevel == "" || old(c).logLevel == "sparse" || old(c).logLevel == "detailed"
                  then old(c).logLevel else "")
    {
      if c.logLevel != "" && c.logLevel != "sparse" && c.logLevel != "detailed" {
        c := c.(logLevel := "");
      }
    }

    method SanitizeFigures(whole: string -> bool)
      modifies this
      ensures c == RepairedFigures(old(c), whole)
    {
      hide TrimmedKey, UsableThreshold;
      SanitizePreload();
      SanitizeStats();
      SanitizeIdleThreshold();
      SanitizeUpdatesAndBudget();
      TrimKey(whole);
      SanitizeLogLevel();
    }

    /** Cuts the key at the last whole character within the ceiling, and never to nothing. */
    method TrimKey(whole: string -> bool)
      modifies this
      ensures c == old(c).(apiKey := TrimmedKey(old(c).apiKey, whole))
    {
      if |c.apiKey| <= 512 {
        return;
      }
      var n := 512;
      while n > 0 && !whole(c.apiKey[..n])
        invariant 0 <= n <= 512
        invariant LastWhole(c.apiKey, n, whole) == LastWhole(c.apiKey, 512, whole)
      {
        n := n - 1;
      }
      c := c.(apiKey := if n > 0 then c.apiKey[..n] else c.apiKey[..512]);
    }

    method SanitizeGrace()
      modifies this
      ensures c == RepairedGrace(old(c))
    {
      if c.graceSec < 0 || c.graceSec > 3600 {
        c := c.(graceSec := 120);
      }
      if c.maxWaitSec < 0 || c.maxWaitSec > 3600 {
        c := c.(maxWaitSec := 300);
      }
      if c.eviction && c.idleTimeout > 0 && GraceSeconds(c) > c.idleTimeout {
        c := c.(graceSec := c.idleTimeout);
      }
      if c.eviction && MaxWaitSeconds(c) < GraceSeconds(c) {
        c := c.(maxWaitSec := GraceSeconds(c));
      }
    }

    method SanitizeTlsPort()
      modifies this
      ensures c == NarrowedTlsPort(old(c))
    {
      if c.tlsPort == NoTlsListener || c.tlsPort == 0 {
        return;
      }
      if c.tlsPort == c.port || c.tlsPort < 0 || c.tlsPort > 65535 {
        c := c.(tlsPort := NoTlsListener);
      }
    }

    /** The sequence a load runs, and what it may rely on after. */
    method Sanitize(modelIds: seq<string>, clientIds: seq<string>, whole: string -> bool)
      requires Lists(modelIds, c.models) && ListsClients(clientIds, c.clients)
      modifies this
      ensures c == Loaded(old(c), modelIds, clientIds, whole)
      ensures Valid(c) && (1 <= c.port <= 65535 ==> ValidTlsPort(c)) && (old(c).apiKey != "" ==> c.apiKey != "")
    {
      LoadedIsValid(c, modelIds, clientIds, whole);
      LoadedParts(c, modelIds, clientIds, whole);
      hide Valid, ValidTlsPort, ValidFigures, ValidGrace, RepairedFigures, RepairedGrace, NarrowedTlsPort, Sanitized,
          KeepModels, KeepClients;
      c := c.(sampling := Sanitized(c.sampling));
      SanitizeModels(modelIds);
      SanitizeClients(clientIds);
      SanitizeFigures(whole);
      SanitizeGrace();
      SanitizeTlsPort();
    }
  }
}

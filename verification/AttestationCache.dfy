/** The attestation cache over whole runs: a hit only repeats what a fresh verification established, and
    never makes it last longer. Inputs, policies and the clock may change between any two steps. What the
    world answered is kept in a log, and every promise is about that log. */
module AttestationCache {
  import opened Digests
  import opened Options

  /** What a cache entry is filed under. */
  datatype Identity = Identity(key: string, projectRoot: string, purpose: string, epoch: string, maxAge: int)

  datatype CacheOptions = CacheOptions(purpose: string, epoch: string, maxAge: int)

  datatype Record = Record(cacheKey: string, key: string, artifact: string, verifiedAt: int, expiresAt: int, statements: seq<string>)

  /** A file of the store: a record, or anything else. */
  datatype Entry = Kept(record: Record) | Unreadable

  datatype Path = Path(directory: string, name: string)

  datatype Result = Result(integrity: bool, signer: bool, cacheHit: bool, expiresAt: int, artifact: string, key: string, statements: seq<string>)

  const NOTHING := Result(false, false, false, 0, "", "", [])

  const MAX_AGE := 86400

  // ---------- The world and its log ----------

  datatype Seen =
    | Called(c: CacheOptions)                                          // a verification is asked for
    | KeyRead(key: Option<string>)                                     // the inputs are hashed
    | StoreOpened(ok: bool, directory: string, root: string)           // the store is checked
    | ArtifactRead(artifact: string)                                   // the artifact is hashed
    | ClockRead(time: int)
    | VerifierRan(result: Result)                                      // the external verifier answers
    | Published(path: Path, record: Record)

  class World {
    ghost var log: seq<Seen>

    constructor ()
      ensures log == []
    {
      log := [];
    }

    /** The identity of the current inputs and policy, unless they are not acceptable. */
    method CurrentKey() returns (key: Option<string>)
      modifies this
      ensures log == old(log) + [KeyRead(key)]
    {
      key := None;
      if * {
        var k: string := *;
        key := Some(k);
      }
      log := log + [KeyRead(key)];
    }

    method Now() returns (t: int)
      modifies this
      ensures log == old(log) + [ClockRead(t)]
    {
      t := *;
      log := log + [ClockRead(t)];
    }

    method HashArtifact() returns (artifact: string)
      modifies this
      ensures log == old(log) + [ArtifactRead(artifact)]
    {
      artifact := *;
      log := log + [ArtifactRead(artifact)];
    }

    /** The protected store and the project it serves, unless the options are refused. */
    method OpenStore(c: CacheOptions) returns (ok: bool, directory: string, root: string)
      modifies this
      ensures log == old(log) + [StoreOpened(ok, directory, root)]
      ensures ok ==> 1 <= c.maxAge <= MAX_AGE
    {
      directory, root := *, *;
      ok := *;
      ok := ok && 1 <= c.maxAge <= MAX_AGE;
      log := log + [StoreOpened(ok, directory, root)];
    }

    /** A run of the external verifier, which reads the inputs by itself. */
    method RunVerifier() returns (r: Result)
      modifies this
      ensures log == old(log) + [VerifierRan(r)] && !r.cacheHit
    {
      var integrity, signer: bool := *, *;
      var artifact, key: string := *, *;
      var statements: seq<string> := *;
      r := Result(integrity, signer, false, 0, artifact, key, statements);
      log := log + [VerifierRan(r)];
    }
  }

  // ---------- Fresh successes ----------

  /** The parts of a call that ran the verifier and published its result: it begins at `began`, and from
      `ran` on come the last six things that happened. */
  datatype Success = Success(began: nat, ran: nat, c: CacheOptions, directory: string, root: string, started: int, result: Result, ended: int)

  function IdentityOf(s: Success): Identity {
    Identity(s.result.key, s.root, s.c.purpose, s.c.epoch, s.c.maxAge)
  }

  /** In this call the key and the store were the same before and after the verifier ran; it succeeded, on
      that key, and was done before its result would have expired, counted from its start. */
  ghost predicate Succeeded(log: seq<Seen>, s: Success) {
    && s.began + 2 < s.ran && s.ran + 4 < |log|
    && log[s.began] == Called(s.c) && (forall k :: s.began < k <= s.ran + 4 ==> !log[k].Called?)
    && log[s.began + 1] == KeyRead(Some(s.result.key)) && log[s.began + 2] == StoreOpened(true, s.directory, s.root)
    && log[s.ran] == ClockRead(s.started) && log[s.ran + 1] == VerifierRan(s.result) && log[s.ran + 2] == ClockRead(s.ended)
    && log[s.ran + 3] == KeyRead(Some(s.result.key)) && log[s.ran + 4] == StoreOpened(true, s.directory, s.root)
    && s.result.integrity && s.result.signer && s.started <= s.ended < s.started + s.c.maxAge
  }

  lemma SuccessStays(log: seq<Seen>, more: seq<Seen>, s: Success)
    requires Succeeded(log, s) && log <= more
    ensures Succeeded(more, s)
  {
  }

  /** The record says what that call found, under its identity, and expires that many seconds after the
      verifier was started. */
  predicate Backs(s: Success, p: Path, r: Record, digest: Identity -> Option<string>) {
    && digest(IdentityOf(s)) == Some(r.cacheKey) && p == Path(s.directory, r.cacheKey)
    && r.key == s.result.key && r.artifact == s.result.artifact && r.statements == s.result.statements
    && r.verifiedAt == s.started && r.expiresAt == s.started + s.c.maxAge
  }

  class Verifier {
    const world: World
    const digest: Identity -> Option<string>
    const subjectMatches: (string, string, string) -> bool   // statement, artifact digest, predicate type
    var store: map<Path, Entry>

    /** Every readable record was published by a fresh success. */
    ghost predicate Valid()
      reads this, world
    {
      forall p :: p in store && store[p].Kept? ==> exists s :: Succeeded(world.log, s) && Backs(s, p, store[p].record, digest)
    }

    constructor (world: World, digest: Identity -> Option<string>, subjectMatches: (string, string, string) -> bool)
      ensures Valid() && this.world == world && this.digest == digest && this.subjectMatches == subjectMatches
    {
      this.world, this.digest, this.subjectMatches, store := world, digest, subjectMatches, map[];
    }

    lemma StaysValid(before: seq<Seen>)
      requires before <= world.log
      requires forall p :: p in store && store[p].Kept? ==> exists s :: Succeeded(before, s) && Backs(s, p, store[p].record, digest)
      ensures Valid()
    {
      forall p | p in store && store[p].Kept?
        ensures exists s :: Succeeded(world.log, s) && Backs(s, p, store[p].record, digest)
      {
        var s :| Succeeded(before, s) && Backs(s, p, store[p].record, digest);
        SuccessStays(before, world.log, s);
      }
    }

    /** Entries may vanish or be damaged; nobody else can forge one. */
    method Disturb(p: Path)
      requires Valid()
      modifies this`store
      ensures Valid() && forall q :: q in store && store[q].Kept? ==> q in old(store) && store[q] == old(store[q])
    {
      if * {
        store := store[p := Unreadable];
      } else {
        store := map q | q in store && q != p :: store[q];
      }
    }

    // ---------- Looking up ----------

    predicate Fits(r: Record, cacheKey: string, key: string, artifact: string) {
      r.cacheKey == cacheKey && r.key == key && r.artifact == artifact
    }

    predicate Usable(r: Record, artifact: string, predicateType: string, maxAge: int, now: int) {
      && 0 < r.verifiedAt <= now < r.expiresAt && r.expiresAt - r.verifiedAt == maxAge
      && r.statements != [] && forall s :: s in r.statements ==> subjectMatches(s, artifact, predicateType)
    }

    /** The clock is read only for a record that is about what is asked. */
    method CachedResult(p: Path, cacheKey: string, key: string, artifact: string, predicateType: string, maxAge: int)
      returns (result: Option<Result>, ghost now: int)
      modifies world
      ensures p in store && store[p].Kept? && Fits(store[p].record, cacheKey, key, artifact) ==>
                && world.log == old(world.log) + [ClockRead(now)]
                && (result.Some? <==> Usable(store[p].record, artifact, predicateType, maxAge, now))
      ensures result.Some? ==> p in store && store[p].Kept? && Fits(store[p].record, cacheKey, key, artifact)
      ensures result.Some? ==> var r := store[p].record;
                result.value == Result(true, true, true, r.expiresAt, artifact, key, r.statements)
      ensures result.None? ==> world.log == old(world.log) || world.log == old(world.log) + [ClockRead(now)]
    {
      now := 0;
      if p !in store || store[p].Unreadable? || !Fits(store[p].record, cacheKey, key, artifact) {
        return None, now;
      }
      var r := store[p].record;
      var t := world.Now();
      now := t;
      if Usable(r, artifact, predicateType, maxAge, t) {
        result := Some(Result(true, true, true, r.expiresAt, artifact, key, r.statements));
      } else {
        result := None;
      }
    }

    /** What happened in a call that ends in a hit: the key and the store were read, the artifact hashed, the
        clock read at the lookup, and the same key and the clock read once more. */
    function HitLog(c: CacheOptions, key: string, directory: string, root: string, artifact: string, lookup: int, last: int): seq<Seen> {
      [Called(c), KeyRead(Some(key)), StoreOpened(true, directory, root), ArtifactRead(artifact), ClockRead(lookup), KeyRead(Some(key)), ClockRead(last)]
    }

    /** `s` justifies the hit: it was asked the same, had been started by the time of the lookup, and was
        still young enough when the last check was made. */
    predicate Justifies(s: Success, result: Result, c: CacheOptions, directory: string, root: string, predicateType: string, lookup: int, last: int) {
      && s.result.key == result.key && s.c == c && s.root == root && s.directory == directory
      && s.result.artifact == result.artifact && s.result.statements == result.statements
      && s.started <= lookup < s.started + c.maxAge && last < s.started + c.maxAge
      && result == Result(true, true, true, s.started + c.maxAge, s.result.artifact, s.result.key, s.result.statements)
      && forall x :: x in result.statements ==> subjectMatches(x, result.artifact, predicateType)
    }

    /** A usable record is backed by a success that justifies using it. */
    lemma Justified(before: seq<Seen>, p: Path, result: Result, c: CacheOptions, directory: string, root: string, cacheKey: string,
                  predicateType: string, lookup: int, last: int) returns (s: Success)
      requires Injective(digest) && p in store && store[p].Kept? && p == Path(directory, cacheKey)
      requires exists s :: Succeeded(before, s) && Backs(s, p, store[p].record, digest)
      requires digest(Identity(result.key, root, c.purpose, c.epoch, c.maxAge)) == Some(cacheKey)
      requires Fits(store[p].record, cacheKey, result.key, result.artifact)
      requires Usable(store[p].record, result.artifact, predicateType, c.maxAge, lookup) && last < result.expiresAt
      requires var r := store[p].record; result == Result(true, true, true, r.expiresAt, r.artifact, r.key, r.statements)
      ensures Succeeded(before, s) && Justifies(s, result, c, directory, root, predicateType, lookup, last)
    {
      s :| Succeeded(before, s) && Backs(s, p, store[p].record, digest);
      var inverse: string -> Identity :| Inverts(inverse, digest);
      assert inverse(cacheKey) == IdentityOf(s);
      assert inverse(cacheKey) == Identity(result.key, root, c.purpose, c.epoch, c.maxAge);
      assert s.c == c;
    }

    /** A lookup that ends in a hit, or in nothing, or in a refusal because the inputs have changed. */
    method TryCache(c: CacheOptions, key: string, directory: string, root: string, cacheKey: string, predicateType: string)
      returns (stop: bool, result: Result, ghost lookup: int, ghost last: int)
      requires Valid() && digest(Identity(key, root, c.purpose, c.epoch, c.maxAge)) == Some(cacheKey)
      modifies world
      ensures Valid() && old(world.log) <= world.log && NoCalls(old(world.log), world.log)
      ensures result.cacheHit ==>
                && stop && result.key == key && last < result.expiresAt
                && world.log == old(world.log) + [ArtifactRead(result.artifact), ClockRead(lookup), KeyRead(Some(key)), ClockRead(last)]
                && (Injective(digest) ==>
                      exists s :: Succeeded(old(world.log), s) && Justifies(s, result, c, directory, root, predicateType, lookup, last))
      ensures !result.cacheHit ==> result == NOTHING
    {
      hide Succeeded, Backs, Justifies, Injective, NoCalls, Usable;
      ghost var before := world.log;
      assert NoCalls(before, before) by { CallsApart(before, []); }
      stop, result, lookup, last := false, NOTHING, 0, 0;
      var p := Path(directory, cacheKey);
      if p !in store {
        return;
      }
      var isPrivate := *;
      if !isPrivate {
        return true, NOTHING, lookup, last;
      }
      var artifact := world.HashArtifact();
      var cached;
      cached, lookup := CachedResult(p, cacheKey, key, artifact, predicateType, c.maxAge);
      if cached.Some? {
        var again := world.CurrentKey();
        if again != Some(key) {
          CallsApart(before, [ArtifactRead(artifact), ClockRead(lookup), KeyRead(again)]);
          assert world.log == before + [ArtifactRead(artifact), ClockRead(lookup), KeyRead(again)];
          StaysValid(before);
          return true, NOTHING, lookup, last;
        }
        var t := world.Now();
        last := t;
        CallsApart(before, [ArtifactRead(artifact), ClockRead(lookup), KeyRead(again), ClockRead(t)]);
        assert world.log == before + [ArtifactRead(artifact), ClockRead(lookup), KeyRead(again), ClockRead(t)];
        if cached.value.expiresAt > t {
          stop, result := true, cached.value;
          if Injective(digest) {
            ghost var s := Justified(before, p, result, c, directory, root, cacheKey, predicateType, lookup, last);
          }
        }
      } else {
        CallsApart(before, [ArtifactRead(artifact)]);
        CallsApart(before, [ArtifactRead(artifact), ClockRead(lookup)]);
        assert world.log == before + [ArtifactRead(artifact)] || world.log == before + [ArtifactRead(artifact), ClockRead(lookup)];
      }
      StaysValid(before);
    }

    // ---------- One verification ----------

    /** A hit changes nothing and is justified by an earlier fresh success. Anything else is decided by a
        fresh run, and the store changes only by a record of that run, dated from its start. */
    method VerifyCached(c: CacheOptions, predicateType: string)
      returns (result: Result, ghost directory: string, ghost root: string, ghost lookup: int, ghost last: int)
      requires Valid()
      modifies this`store, world
      ensures Valid() && old(world.log) + [Called(c)] <= world.log
      ensures result.cacheHit ==>
                && store == old(store) && last < result.expiresAt
                && world.log == old(world.log) + HitLog(c, result.key, directory, root, result.artifact, lookup, last)
                && (Injective(digest) ==>
                      exists s :: Succeeded(old(world.log), s) && Justifies(s, result, c, directory, root, predicateType, lookup, last))
      ensures store == old(store) || PublishedNow(old(store), |old(world.log)|, c)
      ensures !result.cacheHit && result != NOTHING ==> RanNow(|old(world.log)|, result)
    {
      result, lookup, last, directory, root := NOTHING, 0, 0, "", "";
      ghost var before := world.log;
      BeginCall(c);
      var key := world.CurrentKey();
      if key.None? {
        StaysValid(before);
        return;
      }
      var ok, dir, project := world.OpenStore(c);
      directory, root := dir, project;
      StaysValid(before);
      if !ok {
        return;
      }
      var cacheKey := digest(Identity(key.value, project, c.purpose, c.epoch, c.maxAge));
      if cacheKey.None? {
        return;
      }
      var stop;
      label ready:
      assert world.log == before + [Called(c), KeyRead(key), StoreOpened(true, dir, project)];
      stop, result, lookup, last := TryCache(c, key.value, dir, project, cacheKey.value, predicateType);
      if result.cacheHit {
        if Injective(digest) {
          ghost var s :| Succeeded(old@ready(world.log), s) && Justifies(s, result, c, dir, project, predicateType, lookup, last);
          NotInThisCall(before, old@ready(world.log), s);
        }
      } else if !stop {
        result := VerifyFresh(c, key.value, dir, project, cacheKey.value, before);
      }
    }

    /** The call is on record. */
    ghost method BeginCall(c: CacheOptions)
      modifies world
      ensures world.log == old(world.log) + [Called(c)]
    {
      world.log := world.log + [Called(c)];
    }

    /** Nothing that has only just begun has succeeded. */
    lemma NotInThisCall(before: seq<Seen>, now: seq<Seen>, s: Success)
      requires before <= now && |now| == |before| + 3 && now[|before|].Called? && Succeeded(now, s)
      ensures Succeeded(before, s)
    {
      assert s.began <= |before|;
      if s.began == |before| {
        assert false;
      }
      assert s.ran + 4 < |before| by { assert !(s.began < |before| <= s.ran + 4); }
    }

    /** The store has got one record more, backed by a success that this call has just completed. */
    ghost predicate PublishedNow(before: map<Path, Entry>, began: nat, c: CacheOptions)
      reads this, world
    {
      exists s: Success, r: Record :: s.began == began && s.c == c && Succeeded(world.log, s) && Backs(s, Path(s.directory, r.cacheKey), r, digest)
                     && world.log[s.ran + 5..] == [Published(Path(s.directory, r.cacheKey), r)]
                     && store == before[Path(s.directory, r.cacheKey) := Kept(r)]
    }

    /** The answer is the one the verifier gave in this call, up to the expiry of its record. */
    ghost predicate RanNow(from: nat, result: Result)
      reads world
    {
      exists k :: from <= k < |world.log| && world.log[k].VerifierRan? && result == world.log[k].result.(expiresAt := result.expiresAt)
    }

    method VerifyFresh(c: CacheOptions, key: string, directory: string, root: string, cacheKey: string, ghost before: seq<Seen>) returns (result: Result)
      requires Valid() && digest(Identity(key, root, c.purpose, c.epoch, c.maxAge)) == Some(cacheKey)
      requires before + [Called(c), KeyRead(Some(key)), StoreOpened(true, directory, root)] <= world.log
      requires NoCalls(before + [Called(c)], world.log)
      modifies this`store, world
      ensures Valid() && old(world.log) <= world.log && !result.cacheHit
      ensures store == old(store) || PublishedNow(old(store), |before|, c)
      ensures result != NOTHING ==> RanNow(|before|, result)
    {
      hide Injective, Backs, Succeeded;
      ghost var n := |world.log|;
      ghost var atStart := world.log;
      var started := world.Now();
      result := world.RunVerifier();
      ghost var r := result;
      StaysValid(atStart);
      assert world.log[n + 1] == VerifierRan(r);
      if !result.integrity || !result.signer {
        return;
      }
      var now := world.Now();
      StaysValid(atStart);
      assert world.log[n + 1] == VerifierRan(r);
      if now < started || now >= started + c.maxAge {
        return;
      }
      if result.key != key {
        return NOTHING;
      }
      var again := world.CurrentKey();
      if again != Some(key) {
        StaysValid(atStart);
        return NOTHING;
      }
      var ok, checkedDirectory, checkedRoot := world.OpenStore(c);
      StaysValid(atStart);
      if !ok || checkedDirectory != directory || checkedRoot != root {
        return NOTHING;
      }
      assert world.log == atStart + [ClockRead(started), VerifierRan(r), ClockRead(now), KeyRead(Some(key)), StoreOpened(true, directory, root)];
      assert world.log[n + 1] == VerifierRan(r);
      var written := *;
      if written {
        ghost var s := Success(|before|, n, c, directory, root, started, r, now);
        JustSucceeded(before, atStart, world.log, s);
        assert Backs(s, Path(directory, cacheKey), Record(cacheKey, key, r.artifact, started, started + c.maxAge, r.statements), digest) by {
          BacksItsRecord(s, cacheKey);
        }
        var record := Record(cacheKey, key, result.artifact, started, started + c.maxAge, result.statements);
        Publish(Path(directory, cacheKey), record, s);
        result := result.(expiresAt := started + c.maxAge);
        assert world.log[n + 1] == VerifierRan(r);
      }
    }

    lemma BacksItsRecord(s: Success, cacheKey: string)
      requires digest(IdentityOf(s)) == Some(cacheKey)
      ensures Backs(s, Path(s.directory, cacheKey), Record(cacheKey, s.result.key, s.result.artifact, s.started, s.started + s.c.maxAge,
                                                           s.result.statements), digest)
    {
    }

    lemma JustSucceeded(before: seq<Seen>, atStart: seq<Seen>, log: seq<Seen>, s: Success)
      requires before + [Called(s.c), KeyRead(Some(s.result.key)), StoreOpened(true, s.directory, s.root)] <= atStart
      requires NoCalls(before + [Called(s.c)], atStart) && s.began == |before| && s.ran == |atStart|
      requires log == atStart + [ClockRead(s.started), VerifierRan(s.result), ClockRead(s.ended), KeyRead(Some(s.result.key)),
                                 StoreOpened(true, s.directory, s.root)]
      requires s.result.integrity && s.result.signer && s.started <= s.ended < s.started + s.c.maxAge
      ensures Succeeded(log, s)
    {
      var opening := before + [Called(s.c), KeyRead(Some(s.result.key)), StoreOpened(true, s.directory, s.root)];
      assert opening[|before|] == log[|before|] && opening[|before| + 1] == log[|before| + 1] && opening[|before| + 2] == log[|before| + 2];
    }

    /** The record replaces the file, in one step. */
    method Publish(p: Path, record: Record, ghost s: Success)
      requires Valid() && Succeeded(world.log, s) && Backs(s, p, record, digest) && |world.log| == s.ran + 5
      modifies this`store, world
      ensures Valid() && store == old(store)[p := Kept(record)] && world.log == old(world.log) + [Published(p, record)]
      ensures Succeeded(world.log, s) && PublishedNow(old(store), s.began, s.c)
    {
      ghost var before := world.log;
      store := store[p := Kept(record)];
      Log(Published(p, record));
      SuccessStays(before, world.log, s);
      StaysValid(before);
      assert world.log[s.ran + 5..] == [Published(p, record)];
    }

    ghost method Log(e: Seen)
      modifies world
      ensures world.log == old(world.log) + [e]
    {
      world.log := world.log + [e];
    }
  }

  lemma CallsApart(before: seq<Seen>, more: seq<Seen>)
    requires forall k :: 0 <= k < |more| ==> !more[k].Called?
    ensures NoCalls(before, before + more) && before <= before + more
    ensures more == [] ==> before + more == before
  {
  }

  /** No call begins between these two. */
  ghost predicate NoCalls(before: seq<Seen>, now: seq<Seen>) {
    forall k :: |before| <= k < |now| ==> !now[k].Called?
  }
}

/**
 * Append-only version logs, as floor plans, scenes and dashboards keep them: numbered versions with a
 * checksum, the newest published, and the number of the one being served.
 */
module VersionLog {
  import opened Common

  datatype VersionStatus = Published | Superseded

  datatype Version<P> = Version(payload: P, checksum: string, status: VersionStatus)

  type Versions<P> = map<int, Version<P>>

  datatype Log<P> = Log(versions: Versions<P>, active: Option<int>)

  /** The highest number so far, or zero. */
  ghost predicate IsTop(numbers: set<int>, n: int) {
    if numbers == {} then n == 0 else n in numbers && forall k :: k in numbers ==> k <= n
  }

  lemma {:induction false} TopExists(numbers: set<int>) returns (n: int)
    ensures IsTop(numbers, n)
    decreases |numbers|
  {
    n := 0;
    if numbers == {} {
    } else {
      var x := Pick(numbers);
      var rest := TopExists(numbers - {x});
      n := if numbers - {x} == {} || rest < x then x else rest;
      assert forall k :: k in numbers ==> k == x || k in numbers - {x};
    }
  }

  ghost function Top(numbers: set<int>): (n: int)
    ensures IsTop(numbers, n)
  {
    TopWitness(numbers);
    var n :| IsTop(numbers, n);
    n
  }

  lemma TopWitness(numbers: set<int>)
    ensures exists n :: IsTop(numbers, n)
  {
    var n := TopExists(numbers);
  }

  lemma TopNext(seen: set<int>, n: int, k: int)
    requires IsTop(seen, n)
    ensures IsTop(seen + {k}, if seen == {} || k > n then k else n)
  {
  }

  lemma TopUnique(numbers: set<int>, n: int)
    requires IsTop(numbers, n)
    ensures n == Top(numbers)
  {
  }

  // ---- publish and roll back -----------------------------------------------------------------------

  /** Everything published steps back. */
  function SupersededAll<P>(versions: Versions<P>): Versions<P> {
    map k | k in versions ::
        versions[k].(status := if versions[k].status == Published then Superseded else versions[k].status)
  }

  /** The next number, a payload built for it, and its checksum. */
  ghost function PublishedLog<P>(log: Log<P>, build: int -> P, checksum: P -> string): Log<P> {
    var n := Top(log.versions.Keys) + 1;
    Log(SupersededAll(log.versions)[n := Version(build(n), checksum(build(n)), Published)], Some(n))
  }

  function RolledBack<P>(log: Log<P>, n: int): Log<P> { log.(active := Some(n)) }

  /** Numbers run from 1 without gaps, exactly the newest version is published, and the served number is
      absent exactly while there is no version. */
  ghost predicate WellFormed<P>(log: Log<P>) {
    var n := |log.versions|;
    && (forall k :: k in log.versions <==> 1 <= k <= n)
    && (forall k :: k in log.versions ==> (log.versions[k].status == Published <==> k == n))
    && (log.active.None? <==> n == 0)
    && (log.active.Some? ==> log.active.value in log.versions)
  }

  lemma EmptyWellFormed<P>(log: Log<P>)
    requires log.versions == map[] && log.active == None
    ensures WellFormed(log)
  {
  }

  /** Versions stay, with their payloads and checksums. */
  ghost predicate Grows<P>(before: Log<P>, after: Log<P>) {
    forall k :: k in before.versions ==>
      && k in after.versions
      && after.versions[k].payload == before.versions[k].payload
      && after.versions[k].checksum == before.versions[k].checksum
  }

  lemma TopIsCount<P>(log: Log<P>)
    requires WellFormed(log)
    ensures Top(log.versions.Keys) == |log.versions|
  {
    var n := |log.versions|;
    if n > 0 {
      assert n in log.versions;
    } else {
      assert log.versions == map[];
    }
  }

  /** Publishing appends version n + 1 and serves it; nothing published before changes. */
  lemma PublishKeeps<P>(log: Log<P>, build: int -> P, checksum: P -> string)
    requires WellFormed(log)
    ensures var after := PublishedLog(log, build, checksum);
            && Grows(log, after)
            && |after.versions| == |log.versions| + 1
            && after.active == Some(|log.versions| + 1)
            && after.versions[|log.versions| + 1].payload == build(|log.versions| + 1)
            && after.versions[|log.versions| + 1].checksum == checksum(build(|log.versions| + 1))
  {
    TopIsCount(log);
    var after, n := PublishedLog(log, build, checksum), |log.versions| + 1;
    assert after.versions.Keys == log.versions.Keys + {n};
    assert n !in log.versions;
  }

  lemma PublishWellFormed<P>(log: Log<P>, build: int -> P, checksum: P -> string)
    requires WellFormed(log)
    ensures WellFormed(PublishedLog(log, build, checksum))
  {
    TopIsCount(log);
    PublishKeeps(log, build, checksum);
    var after, n := PublishedLog(log, build, checksum), |log.versions| + 1;
    forall k ensures k in after.versions <==> 1 <= k <= n
      ensures k in after.versions ==> (after.versions[k].status == Published <==> k == n)
    {
      assert k in after.versions <==> k in log.versions || k == n;
    }
  }

  /** Rolling back only moves the served number, to a version that exists. */
  lemma RollbackKeeps<P>(log: Log<P>, n: int)
    requires WellFormed(log) && n in log.versions
    ensures WellFormed(RolledBack(log, n)) && RolledBack(log, n).versions == log.versions
  {
  }

  lemma GrowsTwice<P>(a: Log<P>, b: Log<P>, c: Log<P>)
    requires Grows(a, b) && Grows(b, c)
    ensures Grows(a, c)
  {
  }

  datatype Error = NotPublished | VersionMissing | VersionNotFound

  /** What a reader is served. */
  function Served<P>(log: Log<P>): Result<Version<P>, Error> {
    if log.active.None? then Err(NotPublished)
    else if log.active.value !in log.versions then Err(VersionMissing)
    else Ok(log.versions[log.active.value])
  }

  /** Once something was published a reader always gets a version. */
  lemma AlwaysServed<P>(log: Log<P>)
    requires WellFormed(log)
    ensures Served(log) != Err(VersionMissing) && (Served(log).Ok? <==> log.versions != map[])
  {
    assert |log.versions| == 0 ==> log.versions == map[];
  }

  method Highest(numbers: set<int>) returns (n: int)
    ensures IsTop(numbers, n)
  {
    var rest := numbers;
    n := 0;
    while rest != {}
      invariant rest <= numbers && IsTop(numbers - rest, n)
      decreases |rest|
    {
      var k := Any(rest);
      TopNext(numbers - rest, n, k);
      TakeOut(numbers, rest, k);
      if rest == numbers || k > n { n := k; }
      rest := rest - {k};
    }
    assert numbers - rest == numbers;
  }
}

// Which containers are running, from docker's event log and one listing of
// them (agent/docker_listener.go).
module DockerListener {
  import opened Prelude
  import opened StoreData
  import Sync = SyncInstances

  datatype Status = Started | Died | Other

  datatype Event = Event(id: string, status: Status)

  // What readContainerIDs hands to inspectContainers.
  datatype ContainerIDs = ContainerIDs(containers: map<string, bool>, reset: bool)

  // What the first n events last said about a container.
  function Last(log: seq<Event>, n: nat, id: string): Option<bool>
    requires n <= |log|
  {
    if n == 0 then None
    else if log[n - 1].id == id && log[n - 1].status != Other then Some(log[n - 1].status == Started)
    else Last(log, n - 1, id)
  }

  // Whether a container is running after n events, of those in initial at the
  // point where the log starts.
  predicate Running(initial: set<string>, log: seq<Event>, n: nat, id: string)
    requires n <= |log|
  {
    var last := Last(log, n, id);
    if last.Some? then last.value else id in initial
  }

  ghost predicate IsRunningSet(ids: set<string>, initial: set<string>, log: seq<Event>, n: nat)
    requires n <= |log|
  {
    forall id :: id in ids <==> Running(initial, log, n, id)
  }

  // A container that the events between m and n do not mention.
  ghost predicate Quiet(log: seq<Event>, m: nat, n: nat, id: string)
    requires m <= n <= |log|
  {
    forall k {:trigger log[k]} :: m <= k < n ==> log[k].id != id || log[k].status == Other
  }

  lemma {:induction false} QuietKeepsLast(log: seq<Event>, m: nat, n: nat, id: string)
    requires m <= n <= |log| && Quiet(log, m, n, id)
    ensures Last(log, n, id) == Last(log, m, id)
  {
    if m < n {
      assert log[n - 1].id != id || log[n - 1].status == Other;
      QuietKeepsLast(log, m, n - 1, id);
    }
  }

  lemma {:induction false} NoneIsQuiet(log: seq<Event>, n: nat, id: string)
    requires n <= |log| && Last(log, n, id).None?
    ensures Quiet(log, 0, n, id)
  {
    if n > 0 {
      NoneIsQuiet(log, n - 1, id);
    }
  }

  // That is, it has started and not died since, or it ran at the beginning and
  // nothing has been said of it.
  lemma {:induction false} RunningIff(initial: set<string>, log: seq<Event>, n: nat, id: string)
    requires n <= |log|
    ensures Running(initial, log, n, id) <==>
            || (exists k: nat :: k < n && StartedAt(log, k, n, id))
            || (id in initial && Quiet(log, 0, n, id))
  {
    if n > 0 {
      RunningIff(initial, log, n - 1, id);
      var last := log[n - 1];
      if last.id == id && last.status != Other {
        assert last.status == Started ==> StartedAt(log, n - 1, n, id);
      } else {
        assert Quiet(log, 0, n, id) <==> Quiet(log, 0, n - 1, id);
        var m := n - 1;
        if k: nat :| k < m && StartedAt(log, k, m, id) {
          assert StartedAt(log, k, n, id);
        }
        if k: nat :| k < n && StartedAt(log, k, n, id) {
          assert StartedAt(log, k, m, id);
        }
      }
    }
  }

  ghost predicate StartedAt(log: seq<Event>, k: nat, n: nat, id: string)
    requires k < n <= |log|
  {
    log[k] == Event(id, Started) && Quiet(log, k + 1, n, id)
  }

  // The containers that the first message names.
  ghost predicate IsFirst(ids: set<string>, log: seq<Event>, listing: set<string>, p: nat)
    requires p <= |log|
  {
    forall id :: id in ids <==> if Last(log, p, id).Some? then Last(log, p, id).value else id in listing
  }

  ghost function First(log: seq<Event>, listing: set<string>, p: nat): set<string>
    requires p <= |log|
  {
    set id | id in listing + (set k: nat | k < p :: log[k].id) &&
             if Last(log, p, id).Some? then Last(log, p, id).value else id in listing
  }

  lemma {:induction false} LastIsLogged(log: seq<Event>, n: nat, id: string)
    requires n <= |log| && Last(log, n, id).Some?
    ensures exists k: nat :: k < n && log[k].id == id
  {
    if log[n - 1].id != id {
      LastIsLogged(log, n - 1, id);
    }
  }

  lemma FirstFits(log: seq<Event>, listing: set<string>, p: nat)
    requires p <= |log|
    ensures IsFirst(First(log, listing, p), log, listing, p)
  {
    forall id | Last(log, p, id).Some? ensures id in (set k: nat | k < p :: log[k].id) {
      LastIsLogged(log, p, id);
    }
  }

  // The message for an event, if any.
  function Message(e: Event): seq<ContainerIDs> {
    if e.status == Other then [] else [ContainerIDs(map[e.id := e.status == Started], false)]
  }

  function Messages(log: seq<Event>, m: nat, n: nat): seq<ContainerIDs>
    requires m <= n <= |log|
  {
    if m == n then [] else Messages(log, m, n - 1) + Message(log[n - 1])
  }

  // A consumer's set of containers after a message, and after many.
  function Told(ids: set<string>, m: ContainerIDs): set<string> {
    (set id | id in m.containers && m.containers[id]) +
    (set id | id in (if m.reset then {} else ids) && id !in m.containers)
  }

  function ToldAll(ms: seq<ContainerIDs>): set<string> {
    if |ms| == 0 then {} else Told(ToldAll(ms[..|ms| - 1]), ms[|ms| - 1])
  }

  function Stream(first: set<string>, log: seq<Event>, p: nat, n: nat): seq<ContainerIDs>
    requires p <= n <= |log|
  {
    [ContainerIDs(map id | id in first :: true, true)] + Messages(log, p, n)
  }

  lemma StreamMore(first: set<string>, log: seq<Event>, p: nat, k: nat)
    requires p < k <= |log|
    ensures var before, ms := Stream(first, log, p, k - 1), Stream(first, log, p, k);
            if log[k - 1].status == Other then ms == before
            else ms != [] && ms[..|ms| - 1] == before && ms[|ms| - 1] == Message(log[k - 1])[0]
  {
    var before, ms := Stream(first, log, p, k - 1), Stream(first, log, p, k);
    assert ms == before + Message(log[k - 1]);
  }

  lemma ToldMore(first: set<string>, log: seq<Event>, p: nat, n: nat)
    requires p < n <= |log|
    ensures ToldAll(Stream(first, log, p, n)) ==
            if log[n - 1].status == Other then ToldAll(Stream(first, log, p, n - 1))
            else Told(ToldAll(Stream(first, log, p, n - 1)), Message(log[n - 1])[0])
  {
    StreamMore(first, log, p, n);
  }

  // A consumer has a container when its last event says so or, without one,
  // when the listing had it.
  lemma {:induction false} ToldIsLast(first: set<string>, log: seq<Event>, listing: set<string>, p: nat, n: nat)
    requires p <= n <= |log| && IsFirst(first, log, listing, p)
    ensures IsFirst(ToldAll(Stream(first, log, p, n)), log, listing, n)
  {
    if p == n {
      assert Stream(first, log, p, n)[..0] == [];
      assert ToldAll(Stream(first, log, p, n)) == Told({}, ContainerIDs(map id | id in first :: true, true)) == first;
    } else {
      ToldIsLast(first, log, listing, p, n - 1);
      ToldMore(first, log, p, n);
    }
  }

  // The listing reflects some point s of the log.  A consumer that has been
  // told of the first n events then has exactly what runs at that point if and
  // only if no container without an event so far has changed between n and s.
  lemma ToldIsRunningIff(initial: set<string>, first: set<string>, listing: set<string>, log: seq<Event>, s: nat,
                         p: nat, n: nat)
    requires p <= n <= |log| && s <= |log|
    requires IsRunningSet(listing, initial, log, s) && IsFirst(first, log, listing, p)
    ensures IsRunningSet(ToldAll(Stream(first, log, p, n)), initial, log, n) <==>
            forall id :: Last(log, n, id).None? ==> (Running(initial, log, s, id) <==> Running(initial, log, n, id))
  {
    ToldIsLast(first, log, listing, p, n);
  }

  // From the point of the listing on, it is exact wherever in the log the
  // result of the listing was received.
  lemma ToldIsRunning(initial: set<string>, first: set<string>, listing: set<string>, log: seq<Event>, s: nat, p: nat,
                      n: nat)
    requires p <= n <= |log| && s <= n
    requires IsRunningSet(listing, initial, log, s) && IsFirst(first, log, listing, p)
    ensures IsRunningSet(ToldAll(Stream(first, log, p, n)), initial, log, n)
  {
    ToldIsLast(first, log, listing, p, n);
    forall id | Last(log, n, id).None?
      ensures Running(initial, log, s, id) <==> Running(initial, log, n, id)
    {
      NoneIsQuiet(log, n, id);
      QuietKeepsLast(log, s, n, id);
    }
  }

  // readContainerIDs, until the log has been read up to n: the result of the
  // listing arrives when p events have been received.
  method ReadContainerIDs(log: seq<Event>, listing: set<string>, p: nat, n: nat)
    returns (out: seq<ContainerIDs>)
    requires p <= n <= |log|
    ensures out == Stream(First(log, listing, p), log, p, n)
    ensures forall initial, s: nat :: s <= n && IsRunningSet(listing, initial, log, s) ==>
              IsRunningSet(ToldAll(out), initial, log, n)
  {
    var containers: map<string, bool> := map[];
    for i := 0 to p
      invariant forall id :: Get(containers, id) == Last(log, i, id)
    {
      match log[i].status {
        case Started => containers := containers[log[i].id := true];
        case Died => containers := containers[log[i].id := false];
        case Other =>
      }
    }
    var rest := listing;
    while rest != {}
      invariant rest <= listing
      invariant forall id :: Get(containers, id) ==
                  if Last(log, p, id).Some? then Last(log, p, id) else if id in listing - rest then Some(true) else None
      decreases rest
    {
      var id :| id in rest;
      rest := rest - {id};
      if id !in containers {
        containers := containers[id := true];
      }
    }
    containers := DropDead(containers);
    ghost var first := containers.Keys;
    FirstFits(log, listing, p);
    assert forall id :: id in first <==> Get(containers, id).Some?;
    assert first == First(log, listing, p);
    forall id | id in containers ensures containers[id] {
      assert Get(containers, id) == Some(containers[id]);
    }
    assert containers == map id | id in first :: true;
    out := [ContainerIDs(containers, true)];
    for i := p to n
      invariant out == Stream(first, log, p, i)
    {
      out := out + Message(log[i]);
    }
    forall initial, s: nat | s <= n && IsRunningSet(listing, initial, log, s)
      ensures IsRunningSet(ToldAll(out), initial, log, n)
    {
      ToldIsRunning(initial, first, listing, log, s, p, n);
    }
  }

  method DropDead(all: map<string, bool>) returns (containers: map<string, bool>)
    ensures forall id :: Get(containers, id) == if id in all && all[id] then Some(true) else None
  {
    containers := all;
    var rest := all.Keys;
    while rest != {}
      invariant rest <= all.Keys
      invariant forall id :: Get(containers, id) ==
                  if id in all && (all[id] || id in rest) then Some(all[id]) else None
      decreases rest
    {
      var id :| id in rest;
      rest := rest - {id};
      if !all[id] {
        containers := containers - {id};
      }
    }
  }

  // --- inspecting ---

  // What inspectContainers makes of the announced containers when it handles m
  // and docker knows the containers in found.
  function Announced(announced: set<string>, m: ContainerIDs, found: set<string>): set<string> {
    (set id | id in m.containers && m.containers[id] && (id in found || (id in announced && !m.reset))) +
    (set id | id in (if m.reset then {} else announced) && id !in m.containers)
  }

  // What docker answers when asked about a container.
  datatype Answer = Found(container: Container) | NoSuchContainer | InspectError

  type Answers = map<string, Answer>

  function FoundIn(answers: Answers): set<string> {
    set id | id in answers && answers[id].Found?
  }

  // Every started container has been asked about.
  ghost predicate Answered(m: ContainerIDs, answers: Answers) {
    forall id :: id in m.containers && m.containers[id] ==> id in answers
  }

  // An error other than that there is no such container ends inspectContainers.
  ghost predicate Fails(m: ContainerIDs, answers: Answers) {
    exists id :: id in m.containers && m.containers[id] && id in answers && answers[id].InspectError?
  }

  ghost predicate UnderTheirIds(answers: Answers) {
    forall id :: id in answers && answers[id].Found? ==> answers[id].container.id == id
  }

  // Messages and answers about the containers of a host, and what comes of them.
  ghost predicate Proper(ms: seq<ContainerIDs>, answers: seq<Answers>, ids: set<string>)
    requires |answers| == |ms|
  {
    forall j :: 0 <= j < |ms| ==> UnderTheirIds(answers[j]) && ms[j].containers.Keys <= ids
  }

  ghost predicate OfThisHost(u: ContainerUpdate, ids: set<string>) {
    Sync.WellKeyed(u.containers) && u.containers.Keys <= ids
  }

  // Whether the update for m says anything about a container.
  predicate Says(m: ContainerIDs, answers: Answers, base: set<string>, id: string) {
    id in m.containers && if m.containers[id] then id in answers && answers[id].Found? else id in base
  }

  // The entries of the update for m, when base is announced.
  function EntriesFor(m: ContainerIDs, answers: Answers, base: set<string>): map<string, Option<Container>> {
    map id | id in m.containers && Says(m, answers, base, id) ::
      if m.containers[id] then Some(answers[id].container) else None
  }

  function AnnouncedAll(ms: seq<ContainerIDs>, found: seq<set<string>>): set<string>
    requires |ms| <= |found|
  {
    if |ms| == 0 then {} else Announced(AnnouncedAll(ms[..|ms| - 1], found), ms[|ms| - 1], found[|ms| - 1])
  }

  // A container that docker did not know when asked was not running at that
  // point, between m and n.
  ghost predicate Missed(initial: set<string>, log: seq<Event>, m: nat, n: nat, id: string)
    requires n <= |log|
  {
    exists q :: m <= q <= n && !Running(initial, log, q, id)
  }

  // What docker answers for the first message, after both the listing and the
  // p events before it, and for the message of each later event, after the event.
  ghost predicate Honest(initial: set<string>, first: set<string>, log: seq<Event>, s: nat, p: nat, n: nat,
                         found: seq<set<string>>)
    requires p <= n <= |log| && |found| == |Stream(first, log, p, n)|
  {
    && (forall id :: id in first && id !in found[0] ==> Missed(initial, log, if s < p then p else s, n, id))
    && (forall k {:trigger log[k]} :: p <= k < n && log[k].status != Other ==>
      HonestAt(initial, first, log, p, k, n, found))
  }

  ghost predicate HonestAt(initial: set<string>, first: set<string>, log: seq<Event>, p: nat, k: nat, n: nat,
                           found: seq<set<string>>)
    requires p <= k < n <= |log|
  {
    var j := |Stream(first, log, p, k)|;
    j < |found| && (log[k].id in found[j] || Missed(initial, log, k + 1, n, log[k].id))
  }

  // The listing reflects point s, and docker's answers fit the log up to n.
  ghost predicate Fits(initial: set<string>, first: set<string>, listing: set<string>, log: seq<Event>,
                       s: nat, p: nat, n: nat, found: seq<set<string>>) {
    && p <= n <= |log| && s <= n
    && IsRunningSet(listing, initial, log, s) && IsFirst(first, log, listing, p)
    && |found| == |Stream(first, log, p, n)| && Honest(initial, first, log, s, p, n, found)
  }

  lemma AnnouncedMore(first: set<string>, log: seq<Event>, p: nat, k: nat, found: seq<set<string>>)
    requires p < k <= |log| && |Stream(first, log, p, k)| <= |found|
    ensures var before := Stream(first, log, p, k - 1);
            AnnouncedAll(Stream(first, log, p, k), found) ==
            if log[k - 1].status == Other then AnnouncedAll(before, found)
            else Announced(AnnouncedAll(before, found), Message(log[k - 1])[0], found[|before|])
  {
    StreamMore(first, log, p, k);
  }

  predicate Mentions(e: Event, id: string) {
    e.id == id && e.status != Other
  }

  lemma {:induction false} StreamGrows(first: set<string>, log: seq<Event>, p: nat, k: nat, n: nat)
    requires p <= k <= n <= |log|
    ensures |Stream(first, log, p, k)| <= |Stream(first, log, p, n)|
  {
    if k < n {
      StreamGrows(first, log, p, k, n - 1);
      StreamMore(first, log, p, n);
    }
  }

  ghost predicate AnnouncedAt(first: set<string>, log: seq<Event>, p: nat, k: nat, found: seq<set<string>>, id: string)
    requires p <= k <= |log|
  {
    |Stream(first, log, p, k)| <= |found| && id in AnnouncedAll(Stream(first, log, p, k), found)
  }

  lemma UnmentionedStays(first: set<string>, log: seq<Event>, p: nat, k: nat, found: seq<set<string>>, id: string)
    requires p < k <= |log| && |Stream(first, log, p, k)| <= |found| && !Mentions(log[k - 1], id)
    ensures AnnouncedAt(first, log, p, k, found, id) <==> AnnouncedAt(first, log, p, k - 1, found, id)
  {
    AnnouncedMore(first, log, p, k, found);
    StreamGrows(first, log, p, k - 1, k);
  }

  // What holds of a container after its last event, or without any after the
  // first message, holds until n.
  lemma {:induction false} SinceLastMention(first: set<string>, log: seq<Event>, p: nat, k: nat, n: nat,
                                            found: seq<set<string>>, id: string, right: bool)
    requires p <= k <= n <= |log| && Quiet(log, k, n, id) && |Stream(first, log, p, n)| <= |found|
    requires Quiet(log, p, n, id) ==> (AnnouncedAt(first, log, p, p, found, id) <==> right)
    requires forall j {:trigger AnnouncedAt(first, log, p, j, found, id)} ::
               p < j <= n && Mentions(log[j - 1], id) && Quiet(log, j, n, id) ==>
                 (AnnouncedAt(first, log, p, j, found, id) <==> right)
    ensures AnnouncedAt(first, log, p, k, found, id) <==> right
  {
    if k > p && !Mentions(log[k - 1], id) {
      StreamGrows(first, log, p, k, n);
      UnmentionedStays(first, log, p, k, found, id);
      QuietBefore(log, k, n, id);
      SinceLastMention(first, log, p, k - 1, n, found, id, right);
    }
  }

  lemma QuietBefore(log: seq<Event>, k: nat, n: nat, id: string)
    requires 0 < k <= n <= |log| && Quiet(log, k, n, id) && !Mentions(log[k - 1], id)
    ensures Quiet(log, k - 1, n, id)
  {
  }

  lemma MentionedRuns(initial: set<string>, first: set<string>, listing: set<string>, log: seq<Event>,
                      s: nat, p: nat, k: nat, n: nat, found: seq<set<string>>, id: string)
    requires Fits(initial, first, listing, log, s, p, n, found)
    requires p < k <= n && Mentions(log[k - 1], id) && Quiet(log, k, n, id)
    requires |Stream(first, log, p, k)| <= |found|
    ensures id in AnnouncedAll(Stream(first, log, p, k), found) <==> Running(initial, log, n, id)
  {
    AnnouncedMore(first, log, p, k, found);
    assert HonestAt(initial, first, log, p, k - 1, n, found);
    QuietKeepsLast(log, k, n, id);
    QuietRuns(initial, log, k, n, id);
  }

  // A container is announced after n events exactly if it is running.
  lemma AnnouncedIfRunning(initial: set<string>, first: set<string>, listing: set<string>, log: seq<Event>,
                           s: nat, p: nat, n: nat, found: seq<set<string>>, id: string)
    requires Fits(initial, first, listing, log, s, p, n, found)
    ensures AnnouncedAt(first, log, p, n, found, id) <==> Running(initial, log, n, id)
  {
    var right := Running(initial, log, n, id);
    StreamGrows(first, log, p, p, n);
    if Quiet(log, p, n, id) {
      FirstAnnounced(initial, first, listing, log, s, p, n, found, id);
    }
    forall j | p < j <= n && Mentions(log[j - 1], id) && Quiet(log, j, n, id)
      ensures AnnouncedAt(first, log, p, j, found, id) <==> right
    {
      StreamGrows(first, log, p, j, n);
      MentionedRuns(initial, first, listing, log, s, p, j, n, found, id);
    }
    SinceLastMention(first, log, p, n, n, found, id, right);
  }

  lemma QuietRuns(initial: set<string>, log: seq<Event>, m: nat, n: nat, id: string)
    requires m <= n <= |log| && Quiet(log, m, n, id)
    ensures Missed(initial, log, m, n, id) <==> !Running(initial, log, n, id)
  {
    forall q: nat | m <= q <= n ensures Running(initial, log, q, id) <==> Running(initial, log, n, id) {
      QuietKeepsLast(log, m, q, id);
      QuietKeepsLast(log, m, n, id);
    }
  }

  lemma FirstAnnounced(initial: set<string>, first: set<string>, listing: set<string>, log: seq<Event>,
                       s: nat, p: nat, n: nat, found: seq<set<string>>, id: string)
    requires Fits(initial, first, listing, log, s, p, n, found) && Quiet(log, p, n, id)
    ensures id in AnnouncedAll(Stream(first, log, p, p), found) <==> Running(initial, log, n, id)
  {
    var ms := Stream(first, log, p, p);
    assert ms[..0] == [];
    assert AnnouncedAll(ms, found) == Announced({}, ms[0], found[0]);
    QuietKeepsLast(log, p, n, id);
    if Last(log, p, id).None? {
      NoneIsQuiet(log, n, id);
      QuietKeepsLast(log, s, n, id);
    }
    QuietRuns(initial, log, if s < p then p else s, n, id);
  }

  // Once every message has been inspected, what is announced is what runs.
  lemma AnnouncedIsRunning(initial: set<string>, first: set<string>, listing: set<string>, log: seq<Event>,
                           s: nat, p: nat, n: nat, found: seq<set<string>>)
    requires Fits(initial, first, listing, log, s, p, n, found)
    ensures IsRunningSet(AnnouncedAll(Stream(first, log, p, n), found), initial, log, n)
  {
    forall id ensures id in AnnouncedAll(Stream(first, log, p, n), found) <==> Running(initial, log, n, id) {
      AnnouncedIfRunning(initial, first, listing, log, s, p, n, found, id);
    }
  }

  // Docker answered cont for id when message j said that it had started, and no
  // message since then says that it has died, or starts anew.
  ghost predicate GivenAt(ms: seq<ContainerIDs>, answers: seq<Answers>, j: nat, id: string, cont: Container)
    requires |answers| == |ms|
  {
    && j < |ms| && id in ms[j].containers && ms[j].containers[id]
    && id in answers[j] && answers[j][id] == Found(cont)
    && (forall i :: j < i < |ms| ==> !ms[i].reset && (id in ms[i].containers ==> ms[i].containers[id]))
  }

  ghost predicate GivenIn(ms: seq<ContainerIDs>, answers: seq<Answers>, id: string, cont: Container)
    requires |answers| == |ms|
  {
    exists j :: GivenAt(ms, answers, j, id, cont)
  }

  lemma GivenMore(ms: seq<ContainerIDs>, answers: seq<Answers>, j: nat, before: Option<map<string, Container>>,
                  one: Option<ContainerUpdate>, after: Option<map<string, Container>>)
    requires j < |ms| == |answers| && Answered(ms[j], answers[j])
    requires before.Some? ==> forall id :: id in before.value ==> GivenIn(ms[..j], answers[..j], id, before.value[id])
    requires after == if one.Some? then Sync.NextConts(before, one.value) else before
    requires one.None? ==> !ms[j].reset
    requires one.None? && before.Some? ==>
               forall id :: id in ms[j].containers && id in before.value ==> ms[j].containers[id]
    requires one.Some? ==> one.value.reset == ms[j].reset
    requires one.Some? ==> forall id :: id in one.value.containers && one.value.containers[id].Some? ==>
               id in ms[j].containers && ms[j].containers[id] && id in answers[j] &&
               answers[j][id] == Found(one.value.containers[id].value)
    requires one.Some? && before.Some? && !ms[j].reset ==>
               forall id :: id in ms[j].containers && !ms[j].containers[id] && id in before.value ==>
                 id in one.value.containers && one.value.containers[id].None?
    ensures after.Some? ==>
              forall id :: id in after.value ==> GivenIn(ms[..j + 1], answers[..j + 1], id, after.value[id])
  {
    if after.Some? {
      var ms', answers' := ms[..j + 1], answers[..j + 1];
      forall id | id in after.value ensures GivenIn(ms', answers', id, after.value[id]) {
        if !ms[j].reset && before.Some? && id in before.value {
          var i :| GivenAt(ms[..j], answers[..j], i, id, before.value[id]);
          assert GivenAt(ms', answers', i, id, after.value[id]);
        } else {
          assert GivenAt(ms', answers', j, id, after.value[id]);
        }
      }
    }
  }

  class Inspector {
    var announced: set<string>
    ghost var known: Option<map<string, Container>>  // what the consumer knows

    constructor ()
      ensures Inv() && announced == {} && known == None
    {
      announced, known := {}, None;
    }

    // The consumer knows exactly the announced containers, under their ids.
    ghost predicate Inv()
      reads this
    {
      && (known.Some? ==> known.value.Keys == announced)
      && (known.None? ==> announced == {})
    }

    // One message through inspectContainers: what is sent, if anything, or
    // that it fails.  A container is withdrawn only if it was announced, and
    // nothing is sent exactly if there is nothing to say.
    method Inspect(m: ContainerIDs, answers: Answers) returns (sent: Option<ContainerUpdate>, failed: bool)
      requires Inv() && (known.None? ==> m.reset) && Answered(m, answers)
      modifies this
      ensures failed <==> Fails(m, answers)
      ensures failed ==> sent == None && known == old(known)
      ensures !failed ==>
                && Inv() && announced == Announced(old(announced), m, FoundIn(answers))
                && (sent.None? <==> !m.reset && forall id :: !Says(m, answers, old(announced), id))
                && (sent.Some? ==>
                     sent.value == ContainerUpdate(EntriesFor(m, answers, if m.reset then {} else old(announced)),
                       m.reset))
                && known == (if sent.Some? then Sync.NextConts(old(known), sent.value) else old(known))
      ensures sent.Some? ==>
                && sent.value.reset == m.reset
                && (forall id :: id in sent.value.containers ==>
                     && id in m.containers
                     && (if m.containers[id]
                         then id in answers && answers[id].Found? &&
                              sent.value.containers[id] == Some(answers[id].container)
                         else sent.value.containers[id] == None && !m.reset && id in old(announced)))
                && (forall id :: id in m.containers && m.containers[id] && answers[id].Found? ==>
                     id in sent.value.containers)
    {
      if m.reset {
        announced := {};
      }
      ghost var base := announced;
      var update;
      update, failed := InspectAll(m, answers);
      sent := None;
      if failed {
        return;
      }
      AnnouncedIs(old(announced), m, answers);
      ContsKeys(if known.Some? && !m.reset then known.value else map[], update);
      NothingToSay(m, answers, base);
      if m.reset || |update| != 0 {
        sent := Some(ContainerUpdate(update, m.reset));
        known := Sync.NextConts(known, sent.value);
      }
    }

    // A run of inspectContainers, from its start to its first error.
    method InspectStream(ms: seq<ContainerIDs>, answers: seq<Answers>, ghost ids: set<string>)
      returns (sent: seq<ContainerUpdate>, failed: bool)
      requires Inv() && known == None
      requires |answers| == |ms| && (ms != [] ==> ms[0].reset)
      requires forall j :: 0 <= j < |ms| ==> Answered(ms[j], answers[j])
      modifies this
      ensures failed <==> exists j :: 0 <= j < |ms| && Fails(ms[j], answers[j])
      ensures !failed ==> Inv() && announced == AnnouncedAll(ms, FoundAll(answers))
      ensures known == KnownFrom(sent) && (!failed && ms != [] ==> known.Some?)
      ensures !failed && known.Some? ==> forall id :: id in known.value ==> GivenIn(ms, answers, id, known.value[id])
      ensures Proper(ms, answers, ids) ==> forall j :: 0 <= j < |sent| ==> OfThisHost(sent[j], ids)
    {
      sent, failed := [], false;
      for j := 0 to |ms|
        invariant Inv() && (j == 0 || known.Some?) && announced == AnnouncedAll(ms[..j], FoundAll(answers))
        invariant known == KnownFrom(sent) && forall i :: 0 <= i < j ==> !Fails(ms[i], answers[i])
        invariant known.Some? ==> forall id :: id in known.value ==> GivenIn(ms[..j], answers[..j], id, known.value[id])
        invariant Proper(ms, answers, ids) ==> forall i :: 0 <= i < |sent| ==> OfThisHost(sent[i], ids)
      {
        var one;
        ghost var base := if ms[j].reset then {} else announced;
        ghost var before := known;
        one, failed := Inspect(ms[j], answers[j]);
        if failed {
          return;
        }
        assert ms[..j + 1][..j] == ms[..j];
        GivenMore(ms, answers, j, before, one, known);
        if one != None {
          KnownMore(sent, one.value);
          EntriesAreProper(ms[j], answers[j], base, ids);
          sent := sent + [one.value];
        }
      }
      assert ms[..|ms|] == ms && answers[..|ms|] == answers;
    }

    // The loop of inspectContainers.
    method InspectAll(m: ContainerIDs, answers: Answers) returns (update: map<string, Option<Container>>, failed: bool)
      requires Answered(m, answers)
      modifies this`announced
      ensures failed <==> Fails(m, answers)
      ensures !failed ==>
                && update == EntriesFor(m, answers, old(announced))
                && announced == old(announced) - update.Keys + Given(update)
    {
      ghost var base := announced;
      update, failed := map[], false;
      var rest := m.containers.Keys;
      while rest != {}
        invariant rest <= m.containers.Keys
        invariant announced == base - update.Keys + Given(update)
        invariant forall id :: id in update <==> id !in rest && Says(m, answers, base, id)
        invariant forall id :: id in update ==>
                  update[id] == if m.containers[id] then Some(answers[id].container) else None
        invariant forall id :: id in m.containers && id !in rest && m.containers[id] ==> !answers[id].InspectError?
        decreases rest
      {
        var id :| id in rest;
        rest := rest - {id};
        if !m.containers[id] {
          if id in announced {
            update := update[id := None];
            announced := announced - {id};
          }
        } else {
          match answers[id] {
            case Found(details) =>
              update := update[id := Some(details)];
              announced := announced + {id};
            case NoSuchContainer =>
            case InspectError =>
              return update, true;
          }
        }
      }
    }
  }

  function Given(update: map<string, Option<Container>>): set<string> {
    set id | id in update && update[id].Some?
  }

  function FoundAll(answers: seq<Answers>): seq<set<string>> {
    seq(|answers|, j requires 0 <= j < |answers| => FoundIn(answers[j]))
  }

  // The containers that a consumer knows after a series of updates.
  function KnownFrom(sent: seq<ContainerUpdate>): Option<map<string, Container>> {
    if sent == [] then None else Sync.NextConts(KnownFrom(sent[..|sent| - 1]), sent[|sent| - 1])
  }

  lemma KnownMore(sent: seq<ContainerUpdate>, u: ContainerUpdate)
    ensures KnownFrom(sent + [u]) == Sync.NextConts(KnownFrom(sent), u)
  {
    assert (sent + [u])[..|sent|] == sent;
  }

  lemma EntriesAreProper(m: ContainerIDs, answers: Answers, base: set<string>, ids: set<string>)
    ensures UnderTheirIds(answers) && m.containers.Keys <= ids ==>
              OfThisHost(ContainerUpdate(EntriesFor(m, answers, base), m.reset), ids)
  {
  }

  lemma ContsKeys(known: map<string, Container>, update: map<string, Option<Container>>)
    ensures Sync.ContsAfter(known, update).Keys == known.Keys - update.Keys + Given(update)
  {
  }

  lemma NothingToSay(m: ContainerIDs, answers: Answers, base: set<string>)
    ensures |EntriesFor(m, answers, base)| == 0 <==> forall id :: !Says(m, answers, base, id)
  {
    var entries := EntriesFor(m, answers, base);
    assert |entries| == |entries.Keys|;
    if id :| Says(m, answers, base, id) {
      assert id in entries.Keys;
    }
  }

  lemma AnnouncedIs(announced: set<string>, m: ContainerIDs, answers: Answers)
    ensures var base := if m.reset then {} else announced;
            var update := EntriesFor(m, answers, base);
            base - update.Keys + Given(update) == Announced(announced, m, FoundIn(answers))
  {
  }
}

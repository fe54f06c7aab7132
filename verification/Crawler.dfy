/**
 * The crawlers of notes/02_crawler.go: the serial one, and the one whose master
 * counts the messages it is still owed. Both fetch exactly what can be reached.
 */
module Crawler {
  import opened Common

  type Url = string

  /** The pages there are, with the links on them; fetching any other URL is an error. */
  type Web = map<Url, seq<Url>>

  function Links(web: Web, u: Url): seq<Url> {
    if u in web then web[u] else []
  }

  ghost predicate IsPath(web: Web, path: seq<Url>) {
    && path != []
    && forall k: nat {:trigger LinkedAt(web, path, k)} :: k < |path| - 1 ==> LinkedAt(web, path, k)
  }

  ghost predicate LinkedAt(web: Web, path: seq<Url>, k: nat)
    requires k < |path| - 1
  {
    path[k + 1] in Links(web, path[k])
  }

  ghost predicate PathTo(web: Web, start: Url, path: seq<Url>, u: Url) {
    IsPath(web, path) && path[0] == start && path[|path| - 1] == u
  }

  ghost predicate Reachable(web: Web, start: Url, u: Url) {
    exists path :: PathTo(web, start, path, u)
  }

  lemma StartReachable(web: Web, start: Url)
    ensures Reachable(web, start, start)
  {
    assert PathTo(web, start, [start], start);
  }

  lemma LinkReachable(web: Web, start: Url, u: Url, v: Url)
    requires Reachable(web, start, u) && v in Links(web, u)
    ensures Reachable(web, start, v)
  {
    var path :| PathTo(web, start, path, u);
    var longer := path + [v];
    forall k: nat | k < |longer| - 1
      ensures LinkedAt(web, longer, k)
    {
      if k < |path| - 1 {
        assert LinkedAt(web, path, k);
      }
    }
    assert PathTo(web, start, longer, v);
  }

  lemma ReachableFrom(web: Web, start: Url, mid: Url, u: Url)
    requires mid in Links(web, start) && Reachable(web, mid, u)
    ensures Reachable(web, start, u)
  {
    var path :| PathTo(web, mid, path, u);
    var longer := [start] + path;
    forall k: nat | k < |longer| - 1
      ensures LinkedAt(web, longer, k)
    {
      if k > 0 {
        assert LinkedAt(web, path, k - 1);
      }
    }
    assert PathTo(web, start, longer, u);
  }

  ghost predicate LinksIn(web: Web, u: Url, s: set<Url>) {
    forall v :: v in Links(web, u) ==> v in s
  }

  /** A set that holds the start and all links of its members holds everything reachable. */
  lemma {:induction false} ClosedHoldsReachable(web: Web, start: Url, s: set<Url>, path: seq<Url>)
    requires start in s && forall u :: u in s ==> LinksIn(web, u, s)
    requires IsPath(web, path) && path[0] == start
    ensures path[|path| - 1] in s
  {
    if |path| > 1 {
      var k := |path| - 1;
      var shorter := path[..k];
      forall i: nat | i < |shorter| - 1
        ensures LinkedAt(web, shorter, i)
      {
        assert LinkedAt(web, path, i);
      }
      ClosedHoldsReachable(web, start, s, shorter);
      assert LinkedAt(web, path, k - 1);
      assert LinksIn(web, path[k - 1], s);
    }
  }

  /** A closed set of reachable URLs around the start is the set of all reachable URLs. */
  lemma ClosedIsReachable(web: Web, start: Url, s: set<Url>)
    requires start in s && forall u :: u in s ==> LinksIn(web, u, s)
    requires forall u :: u in s ==> Reachable(web, start, u)
    ensures forall u :: u in s <==> Reachable(web, start, u)
  {
    forall u | Reachable(web, start, u)
      ensures u in s
    {
      var path :| PathTo(web, start, path, u);
      ClosedHoldsReachable(web, start, s, path);
    }
  }

  /** All URLs some page links to. */
  ghost function Targets(web: Web): set<Url> {
    set p, i | p in web && 0 <= i < |web[p]| :: web[p][i]
  }

  lemma LinkIsTarget(web: Web, u: Url, v: Url)
    requires v in Links(web, u)
    ensures v in Targets(web)
  {
    var i :| 0 <= i < |web[u]| && web[u][i] == v;
  }

  // ---- the serial crawler ----

  /** The shared map of fetched URLs. */
  class Fetched {
    var urls: set<Url>
    constructor ()
      ensures urls == {}
    {
      urls := {};
    }
  }

  /** What a call adds: reachable URLs, with all their links. */
  ghost predicate Crawled(web: Web, start: Url, before: set<Url>, after: set<Url>) {
    && before <= after && start in after
    && forall v :: v in after - before ==> Reachable(web, start, v) && LinksIn(web, v, after)
  }

  method Serial(url: Url, web: Web, fetched: Fetched)
    modifies fetched
    ensures Crawled(web, url, old(fetched.urls), fetched.urls)
    decreases |Targets(web) + {url} - fetched.urls|
  {
    if url in fetched.urls {
      return;
    }
    ghost var before := fetched.urls;
    fetched.urls := fetched.urls + {url};
    StartReachable(web, url);
    var urls := Links(web, url);
    for i := 0 to |urls|
      invariant before + {url} <= fetched.urls
      invariant forall v :: v in fetched.urls - before - {url} ==>
        Reachable(web, url, v) && LinksIn(web, v, fetched.urls)
      invariant forall k :: 0 <= k < i ==> urls[k] in fetched.urls
    {
      LinkIsTarget(web, url, urls[i]);
      FewerLeft(Targets(web), url, urls[i], before, fetched.urls);
      ghost var mid := fetched.urls;
      Serial(urls[i], web, fetched);
      forall v | v in fetched.urls - before - {url}
        ensures Reachable(web, url, v) && LinksIn(web, v, fetched.urls)
      {
        if v !in mid {
          ReachableFrom(web, url, urls[i], v);
        } else {
          assert LinksIn(web, v, mid);
        }
      }
    }
  }

  lemma FewerLeft(targets: set<Url>, url: Url, next: Url, before: set<Url>, now: set<Url>)
    requires next in targets && url !in before && before + {url} <= now
    ensures |targets + {next} - now| < |targets + {url} - before|
  {
    var left := targets + {next} - now;
    assert left + {url} <= targets + {url} - before;
    SubsetSize(left + {url}, targets + {url} - before);
  }

  method SerialCrawl(url: Url, web: Web) returns (urls: set<Url>)
    ensures forall u :: u in urls <==> Reachable(web, url, u)
  {
    var fetched := new Fetched();
    Serial(url, web, fetched);
    urls := fetched.urls;
    ClosedIsReachable(web, url, urls);
  }

  // ---- the crawler with a channel ----

  /** A message still to come: the first one, or that of a worker. */
  datatype Owed = First | Worker(u: Url)

  function Message(web: Web, start: Url, m: Owed): seq<Url> {
    match m
    case First => [start]
    case Worker(u) => Links(web, u)
  }

  /** What the master's loop keeps: the URLs it has fetched, the workers it started, and the messages owed to it. */
  ghost predicate MasterOk(web: Web, start: Url, fetched: set<Url>, workers: seq<Url>, owed: multiset<Owed>) {
    && Distinct(workers) && Elems(workers) == fetched
    && (forall u :: u in fetched ==> Reachable(web, start, u))
    && (First in owed || start in fetched)
    && (forall u {:trigger Answered(web, fetched, owed, u)} :: u in fetched ==> Answered(web, fetched, owed, u))
    && (forall u :: Worker(u) in owed ==> u in fetched)
  }

  /** The links of u are yet to come, or all fetched. */
  ghost predicate Answered(web: Web, fetched: set<Url>, owed: multiset<Owed>, u: Url) {
    Worker(u) in owed || LinksIn(web, u, fetched)
  }

  /** A URL not fetched before: mark it and start its worker. */
  lemma StartWorker(web: Web, start: Url, fetched: set<Url>, workers: seq<Url>, owed: multiset<Owed>, u: Url)
    requires MasterOk(web, start, fetched, workers, owed) && u !in fetched && Reachable(web, start, u)
    ensures MasterOk(web, start, fetched + {u}, workers + [u], owed + multiset{Worker(u)})
  {
    ElemsAppend(workers, u);
    assert u !in workers by { assert u in workers ==> u in Elems(workers); }
    forall v | v in fetched + {u}
      ensures Answered(web, fetched + {u}, owed + multiset{Worker(u)}, v)
    {
      if v in fetched {
        assert Answered(web, fetched, owed, v);
      }
    }
  }

  lemma MessageReachable(web: Web, start: Url, m: Owed, u: Url)
    requires (m.Worker? ==> Reachable(web, start, m.u)) && u in Message(web, start, m)
    ensures Reachable(web, start, u)
  {
    if m.Worker? {
      LinkReachable(web, start, m.u, u);
    } else {
      StartReachable(web, start);
    }
  }

  /** `all` holds the start and everything linked to. */
  ghost predicate Covers(web: Web, start: Url, all: set<Url>) {
    start in all && forall u :: LinksIn(web, u, all)
  }

  lemma TargetsCover(web: Web, start: Url)
    ensures Covers(web, start, Targets(web) + {start})
  {
    forall u
      ensures LinksIn(web, u, Targets(web) + {start})
    {
      forall v | v in Links(web, u)
        ensures v in Targets(web)
      {
        LinkIsTarget(web, u, v);
      }
    }
  }

  /** How many URLs could still turn up. */
  ghost function Left(all: set<Url>, fetched: set<Url>): nat {
    |all - fetched|
  }

  lemma OneLess(web: Web, start: Url, all: set<Url>, fetched: set<Url>, m: Owed, u: Url)
    requires Covers(web, start, all) && u in Message(web, start, m) && u !in fetched
    ensures Left(all, fetched + {u}) + 1 == Left(all, fetched)
  {
    assert m.Worker? ==> LinksIn(web, m.u, all);
    assert all - fetched == (all - (fetched + {u})) + {u};
  }

  /** All URLs of a message are fetched, so the message is no longer owed. */
  lemma MessageDone(web: Web, start: Url, fetched: set<Url>, workers: seq<Url>, owed: multiset<Owed>, m: Owed)
    requires MasterOk(web, start, fetched, workers, owed) && m in owed
    requires forall u :: u in Message(web, start, m) ==> u in fetched
    ensures MasterOk(web, start, fetched, workers, owed - multiset{m})
    ensures |owed - multiset{m}| == |owed| - 1
  {
    assert owed == (owed - multiset{m}) + multiset{m};
    forall u | u in fetched
      ensures Answered(web, fetched, owed - multiset{m}, u)
    {
      assert Answered(web, fetched, owed, u);
      if m == Worker(u) {
        assert Message(web, start, m) == Links(web, u);
      }
    }
    if m == First {
      assert start in Message(web, start, m);
    }
  }

  lemma FoundInMessage(web: Web, start: Url, fetched: set<Url>, workers: seq<Url>, owed: multiset<Owed>, m: Owed,
                       u: Url)
    requires MasterOk(web, start, fetched, workers, owed) && m in owed
    requires u in Message(web, start, m) && u !in fetched
    ensures MasterOk(web, start, fetched + {u}, workers + [u], owed + multiset{Worker(u)})
  {
    MessageReachable(web, start, m, u);
    StartWorker(web, start, fetched, workers, owed, u);
  }

  lemma AllAnswered(web: Web, start: Url, fetched: set<Url>, workers: seq<Url>, owed: multiset<Owed>)
    requires MasterOk(web, start, fetched, workers, owed) && |owed| == 0
    ensures start in fetched && forall u :: u in fetched ==> LinksIn(web, u, fetched) && Reachable(web, start, u)
  {
    forall u | u in fetched
      ensures LinksIn(web, u, fetched)
    {
      assert Answered(web, fetched, owed, u);
    }
  }

  /** Go through the URLs of one message, starting a worker for each new one. */
  method TakeMessage(web: Web, start: Url, m: Owed, known: set<Url>, running: seq<Url>, owedBefore: multiset<Owed>,
                     ghost all: set<Url>)
    returns (fetched: set<Url>, workers: seq<Url>, owed: multiset<Owed>, started: nat)
    requires Covers(web, start, all)
    requires m in owedBefore && MasterOk(web, start, known, running, owedBefore)
    ensures MasterOk(web, start, fetched, workers, owed)
    ensures m in owed && |owed| == |owedBefore| + started
    ensures forall u :: u in Message(web, start, m) ==> u in fetched
    ensures Left(all, fetched) + started == Left(all, known)
  {
    var urls := Message(web, start, m);
    fetched, workers, owed, started := known, running, owedBefore, 0;
    for i := 0 to |urls|
      invariant MasterOk(web, start, fetched, workers, owed)
      invariant m in owed && |owed| == |owedBefore| + started
      invariant forall k :: 0 <= k < i ==> urls[k] in fetched
      invariant Left(all, fetched) + started == Left(all, known)
    {
      var u := urls[i];
      if u !in fetched {
        FoundInMessage(web, start, fetched, workers, owed, m, u);
        OneLess(web, start, all, fetched, m, u);
        fetched := fetched + {u};
        workers := workers + [u];
        owed := owed + multiset{Worker(u)};
        started := started + 1;
      }
    }
  }

  /**
   * The channel crawler. Which of the messages owed arrives next is left open;
   * n is their number. It ends, having started one worker for each URL that can
   * be reached and no other.
   */
  method ConcurrentChannel(url: Url, web: Web) returns (fetched: set<Url>, workers: seq<Url>)
    ensures forall u :: u in fetched <==> Reachable(web, url, u)
    ensures Distinct(workers) && Elems(workers) == fetched
  {
    fetched, workers := {}, [];
    var owed := multiset{First};
    var n := 1;
    ghost var all := Targets(web) + {url};
    TargetsCover(web, url);
    while true
      invariant n == |owed| && n > 0
      invariant MasterOk(web, url, fetched, workers, owed)
      decreases Left(all, fetched), n
    {
      var m :| m in owed;
      var started;
      fetched, workers, owed, started := TakeMessage(web, url, m, fetched, workers, owed, all);
      n := n + started;
      MessageDone(web, url, fetched, workers, owed, m);
      owed := owed - multiset{m};
      n := n - 1;
      if n == 0 {
        break;
      }
    }
    AllAnswered(web, url, fetched, workers, owed);
    ClosedIsReachable(web, url, fetched);
  }
}

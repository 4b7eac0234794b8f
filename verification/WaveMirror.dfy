/**
 * The read-only mirror of Wave entities (src/data_entry/waveapps_entity_sync.py over
 * src/operations/local_ledger.py). The server is arbitrary: any function from entity type, call
 * number and requested page to an answer.
 */
module WaveMirror {
  import opened Text
  import opened Numbers

  datatype Node = Node(id: string, body: string)

  /** An edge without a usable node is skipped. */
  datatype Edge = NoNode | Entity(node: Node)

  /** Counts that are missing or unreadable are `None`. */
  datatype Fetch =
    | Denied(quotaExhausted: bool)
    | Unavailable
    | Page(edges: seq<Edge>, totalCount: Option<int>, totalPages: Option<int>, currentPage: Option<int>)

  type Server = (string, nat, int) -> Fetch

  datatype EntityKey = EntityKey(target: string, entityType: string, externalId: string)

  datatype Row = Row(body: string, present: bool, lastRun: Option<nat>)

  /** What one synchronization of one entity type writes under. */
  datatype Scope = Scope(target: string, entityType: string, run: nat)

  datatype Status = Completed | QuotaExhausted | RateLimited | ProviderError | PaginationIncomplete | InternalError

  /** `visited` are the nodes written so far and `pages` the answers they came from. */
  datatype Progress = Progress(page: int, fetches: nat, expected: Option<int>, visited: seq<Node>,
                               pages: seq<Fetch>, rows: map<EntityKey, Row>)

  datatype Outcome = Outcome(status: Status, progress: Progress)

  // ------------------------------------------------------------------------------------------
  // Specification of one entity type
  // ------------------------------------------------------------------------------------------

  function NodesOf(edges: seq<Edge>): seq<Node> {
    if edges == [] then []
    else (if edges[0].Entity? && edges[0].node.id != "" then [edges[0].node] else []) + NodesOf(edges[1..])
  }

  function KeyOf(scope: Scope, id: string): EntityKey {
    EntityKey(scope.target, scope.entityType, Strip(id))
  }

  function Upsert(rows: map<EntityKey, Row>, scope: Scope, node: Node): map<EntityKey, Row> {
    rows[KeyOf(scope, node.id) := Row(node.body, true, Some(scope.run))]
  }

  function UpsertAll(rows: map<EntityKey, Row>, scope: Scope, nodes: seq<Node>): map<EntityKey, Row> {
    if nodes == [] then rows else Upsert(UpsertAll(rows, scope, nodes[..|nodes| - 1]), scope, nodes[|nodes| - 1])
  }

  predicate InScope(scope: Scope, key: EntityKey) {
    key.target == scope.target && key.entityType == scope.entityType
  }

  /** Rows of the scope that this run did not see become missing. */
  function MarkMissing(rows: map<EntityKey, Row>, scope: Scope): map<EntityKey, Row> {
    map key | key in rows ::
      if InScope(scope, key) && rows[key].lastRun != Some(scope.run) then rows[key].(present := false) else rows[key]
  }

  function IdsOf(nodes: seq<Node>): set<string> {
    set i | 0 <= i < |nodes| :: nodes[i].id
  }

  /** How far a page gets: all of its nodes, up to a repeated id, up to a blank one, or nowhere. */
  datatype Visit = AllVisited | Repeated | Blank | TotalChanged

  function VisitNodes(scope: Scope, p: Progress, nodes: seq<Node>): (r: (Visit, Progress))
    ensures r.0 != TotalChanged
    decreases |nodes|
  {
    if nodes == [] then (AllVisited, p)
    else if nodes[0].id in IdsOf(p.visited) then (Repeated, p)
    else if Strip(nodes[0].id) == "" then (Blank, p)
    else VisitNodes(scope, p.(visited := p.visited + [nodes[0]], rows := Upsert(p.rows, scope, nodes[0])), nodes[1..])
  }

  function Reported(total: Option<int>): Option<int> {
    if total.Some? && total.value >= 0 then total else None
  }

  function AtLeast(value: Option<int>, default: int, minimum: int): int {
    var v := if value.Some? then value.value else default;
    if v < minimum then minimum else v
  }

  function Ask(server: Server, entityType: string, call: nat, page: int): Fetch {
    server(entityType, call, page)
  }

  function Absorb(scope: Scope, p: Progress, answer: Fetch): (Visit, Progress)
    requires answer.Page?
  {
    var total := Reported(answer.totalCount);
    var fetched := p.(fetches := p.fetches + 1, pages := p.pages + [answer]);
    if p.expected.Some? && total.Some? && total != p.expected then (TotalChanged, fetched)
    else VisitNodes(scope, fetched.(expected := if p.expected.None? then total else p.expected), NodesOf(answer.edges))
  }

  function Crawl(server: Server, scope: Scope, maxPages: int, p: Progress): Outcome
    decreases maxPages - p.page
  {
    if p.page > maxPages then Outcome(PaginationIncomplete, p)
    else
      var answer := Ask(server, scope.entityType, p.fetches, p.page);
      if answer.Denied? then Outcome(if answer.quotaExhausted then QuotaExhausted else RateLimited, p)
      else if answer.Unavailable? then Outcome(ProviderError, p)
      else
        var (visit, q) := Absorb(scope, p, answer);
        if visit == Blank then Outcome(InternalError, q)
        else if visit != AllVisited then Outcome(PaginationIncomplete, q)
        else
          var next := Following(answer, p.page);
          if next.None? then Finished(scope, q)
          else Crawl(server, scope, maxPages, q.(page := next.value))
  }

  function Finished(scope: Scope, q: Progress): Outcome {
    if q.expected != Some(|q.visited|) then Outcome(PaginationIncomplete, q)
    else Outcome(Completed, q.(rows := MarkMissing(q.rows, scope)))
  }

  lemma CrawlNext(server: Server, scope: Scope, maxPages: int, p: Progress)
    requires p.page <= maxPages && Ask(server, scope.entityType, p.fetches, p.page).Page?
    requires Absorb(scope, p, Ask(server, scope.entityType, p.fetches, p.page)).0 == AllVisited
    ensures var answer := Ask(server, scope.entityType, p.fetches, p.page);
            var q, next := Absorb(scope, p, answer).1, Following(answer, p.page);
            Crawl(server, scope, maxPages, p)
            == if next.None? then Finished(scope, q) else Crawl(server, scope, maxPages, q.(page := next.value))
  {
  }

  /** The page after this one, if the crawl goes on. */
  function Following(answer: Fetch, page: int): Option<int>
    requires answer.Page?
  {
    var current := AtLeast(answer.currentPage, page, page);
    if current >= AtLeast(answer.totalPages, 1, 1) then None else Some(current + 1)
  }

  function Begin(rows: map<EntityKey, Row>): Progress {
    Progress(1, 0, None, [], [], rows)
  }

  function SyncType(server: Server, scope: Scope, maxPages: int, rows: map<EntityKey, Row>): Outcome {
    Crawl(server, scope, maxPages, Begin(rows))
  }

  /** A run over several entity types, up to the first one that does not complete. */
  datatype SyncRun = SyncRun(status: Status, rows: map<EntityKey, Row>, visited: seq<seq<Node>>)

  function SyncAll(server: Server, target: string, run: nat, types: seq<string>, maxPages: int,
                   rows: map<EntityKey, Row>): SyncRun {
    if types == [] then SyncRun(Completed, rows, [])
    else
      var n := |types| - 1;
      SyncNext(server, Scope(target, types[n], run), maxPages, SyncAll(server, target, run, types[..n], maxPages, rows))
  }

  function SyncNext(server: Server, scope: Scope, maxPages: int, r: SyncRun): SyncRun {
    if r.status != Completed then r
    else
      var o := SyncType(server, scope, maxPages, r.rows);
      SyncRun(o.status, o.progress.rows, r.visited + [o.progress.visited])
  }

  // ------------------------------------------------------------------------------------------
  // The synchronizer
  // ------------------------------------------------------------------------------------------

  class Mirror {
    var rows: map<EntityKey, Row>
    var nextRun: nat

    constructor ()
      ensures rows == map[] && nextRun == 1
    {
      rows, nextRun := map[], 1;
    }

    /** Refuses a blank id. */
    method UpsertWaveEntity(scope: Scope, node: Node) returns (ok: bool)
      modifies this`rows
      ensures ok <==> Strip(node.id) != ""
      ensures rows == if ok then Upsert(old(rows), scope, node) else old(rows)
    {
      var externalId := Strip(node.id);
      ok := externalId != "";
      if ok {
        rows := rows[EntityKey(scope.target, scope.entityType, externalId) := Row(node.body, true, Some(scope.run))];
      }
    }

    /** Write the nodes of one page, up to a repeated or a blank id. */
    method WriteNodes(scope: Scope, nodes: seq<Node>, before: set<string>, ghost p: Progress)
      returns (visit: Visit, seen: set<string>, written: nat, ghost q: Progress)
      requires p.rows == rows && before == IdsOf(p.visited)
      modifies this`rows
      ensures (visit, q) == VisitNodes(scope, p, nodes)
      ensures q == p.(visited := q.visited, rows := rows)
      ensures |q.visited| == |p.visited| + written
      ensures visit == AllVisited ==> seen == IdsOf(q.visited) && |seen| == |before| + written
    {
      seen, written, q := before, 0, p;
      for i := 0 to |nodes|
        invariant VisitNodes(scope, q, nodes[i..]) == VisitNodes(scope, p, nodes)
        invariant q == p.(visited := q.visited, rows := rows)
        invariant |q.visited| == |p.visited| + written
        invariant seen == IdsOf(q.visited) && |seen| == |before| + written
      {
        var node := nodes[i];
        assert nodes[i..][1..] == nodes[i + 1..];
        if node.id in seen {
          return Repeated, seen, written, q;
        }
        seen := seen + {node.id};
        var ok := UpsertWaveEntity(scope, node);
        if !ok {
          return Blank, seen, written, q;
        }
        IdsAppend(q.visited, node);
        q := q.(visited := q.visited + [node], rows := rows);
        written := written + 1;
      }
      visit := AllVisited;
    }

    method MarkEntitiesMissing(scope: Scope)
      modifies this`rows
      ensures rows == MarkMissing(old(rows), scope)
    {
      rows := map key | key in rows ::
        if InScope(scope, key) && rows[key].lastRun != Some(scope.run) then rows[key].(present := false) else rows[key];
    }

    method SyncEntityType(server: Server, scope: Scope, maxPages: int)
      returns (status: Status, pagesFetched: nat, entitiesSeen: nat)
      modifies this`rows
      ensures var outcome := SyncType(server, scope, maxPages, old(rows));
              && status == outcome.status && rows == outcome.progress.rows
              && pagesFetched == outcome.progress.fetches && entitiesSeen == |outcome.progress.visited|
    {
      ghost var outcome := SyncType(server, scope, maxPages, rows);
      var page := 1;
      var expected: Option<int> := None;
      var seen: set<string> := {};
      pagesFetched, entitiesSeen := 0, 0;
      ghost var p := Begin(rows);
      while page <= maxPages
        invariant outcome == Crawl(server, scope, maxPages, p)
        invariant p == Progress(page, pagesFetched, expected, p.visited, p.pages, rows)
        invariant |p.visited| == entitiesSeen && seen == IdsOf(p.visited) && |seen| == entitiesSeen
        decreases maxPages - page
      {
        var answer := Ask(server, scope.entityType, pagesFetched, page);
        if answer.Denied? {
          return if answer.quotaExhausted then QuotaExhausted else RateLimited, pagesFetched, entitiesSeen;
        }
        if answer.Unavailable? {
          return ProviderError, pagesFetched, entitiesSeen;
        }
        ghost var fetching := p;
        pagesFetched := pagesFetched + 1;
        var total := Reported(answer.totalCount);
        if expected.Some? && total.Some? && total != expected {
          return PaginationIncomplete, pagesFetched, entitiesSeen;
        }
        if expected.None? {
          expected := total;
        }
        var visit, written;
        visit, seen, written, p :=
          WriteNodes(scope, NodesOf(answer.edges), seen,
                     Progress(page, pagesFetched, expected, p.visited, p.pages + [answer], rows));
        assert (visit, p) == Absorb(scope, fetching, answer);
        if visit == AllVisited {
          CrawlNext(server, scope, maxPages, fetching);
        }
        entitiesSeen := entitiesSeen + written;
        if visit == Repeated {
          return PaginationIncomplete, pagesFetched, entitiesSeen;
        }
        if visit == Blank {
          return InternalError, pagesFetched, entitiesSeen;
        }
        var next := Following(answer, page);
        if next.None? {
          if expected.None? || |seen| != expected.value {
            return PaginationIncomplete, pagesFetched, entitiesSeen;
          }
          MarkEntitiesMissing(scope);
          return Completed, pagesFetched, entitiesSeen;
        }
        page := next.value;
        p := p.(page := page);
      }
      status := PaginationIncomplete;
    }

    /** Every row was last seen by a run that has been started. */
    ghost predicate RunsStarted()
      reads this
    {
      RunsBelow(rows, nextRun)
    }

    /** The run gets an id that no row of the mirror carries. */
    method Sync(server: Server, target: string, types: seq<string>, maxPages: nat) returns (status: Status, run: nat)
      requires RunsStarted()
      modifies this
      ensures RunsStarted() && run == old(nextRun) && nextRun == run + 1
      ensures forall t :: Fresh(old(rows), Scope(target, t, run))
      ensures var r := SyncAll(server, target, run, types, maxPages, old(rows)); status == r.status && rows == r.rows
    {
      run := nextRun;
      nextRun := nextRun + 1;
      status := Completed;
      RunsStayBelow(server, target, run, types, maxPages, rows);
      assert types[..0] == [];
      for i := 0 to |types|
        invariant run == old(nextRun) && nextRun == run + 1 && status == Completed
        invariant SyncAll(server, target, run, types[..i], maxPages, old(rows)).rows == rows
        invariant SyncAll(server, target, run, types[..i], maxPages, old(rows)).status == Completed
      {
        var pages, entities;
        SyncAllNext(server, target, run, types, i, maxPages, old(rows));
        status, pages, entities := SyncEntityType(server, Scope(target, types[i], run), maxPages);
        if status != Completed {
          SyncAllStops(server, target, run, types, i + 1, maxPages, old(rows));
          return;
        }
      }
      assert types[..|types|] == types;
    }
  }

  ghost predicate RunsBelow(rows: map<EntityKey, Row>, next: nat) {
    forall key :: key in rows && rows[key].lastRun.Some? ==> rows[key].lastRun.value < next
  }

  lemma {:induction false} RunsStayBelow(server: Server, target: string, run: nat, types: seq<string>, maxPages: nat,
                                         rows: map<EntityKey, Row>)
    requires RunsBelow(rows, run + 1)
    ensures RunsBelow(SyncAll(server, target, run, types, maxPages, rows).rows, run + 1)
  {
    if types != [] {
      var n := |types| - 1;
      var scope := Scope(target, types[n], run);
      var r := SyncAll(server, target, run, types[..n], maxPages, rows);
      RunsStayBelow(server, target, run, types[..n], maxPages, rows);
      var o := SyncType(server, scope, maxPages, r.rows);
      CrawlFacts(server, scope, maxPages, r.rows, Begin(r.rows));
      forall key | key in o.progress.rows && o.progress.rows[key].lastRun.Some?
        ensures o.progress.rows[key].lastRun.value < run + 1
      {
        UpsertAllExactly(r.rows, scope, o.progress.visited, key);
      }
    }
  }

  lemma SyncAllNext(server: Server, target: string, run: nat, types: seq<string>, i: nat, maxPages: int,
                    rows: map<EntityKey, Row>)
    requires i < |types|
    ensures SyncAll(server, target, run, types[..i + 1], maxPages, rows)
         == SyncNext(server, Scope(target, types[i], run), maxPages,
             SyncAll(server, target, run, types[..i], maxPages, rows))
  {
    assert types[..i + 1][..i] == types[..i];
  }

  lemma {:induction false} SyncAllStops(server: Server, target: string, run: nat, types: seq<string>, i: nat,
                                        maxPages: int,
                                        rows: map<EntityKey, Row>)
    requires i <= |types| && SyncAll(server, target, run, types[..i], maxPages, rows).status != Completed
    ensures SyncAll(server, target, run, types, maxPages, rows)
            == SyncAll(server, target, run, types[..i], maxPages, rows)
    decreases |types| - i
  {
    if i == |types| {
      assert types[..i] == types;
    } else {
      SyncAllNext(server, target, run, types, i, maxPages, rows);
      SyncAllStops(server, target, run, types, i + 1, maxPages, rows);
    }
  }

  lemma IdsAppend(nodes: seq<Node>, node: Node)
    ensures IdsOf(nodes + [node]) == IdsOf(nodes) + {node.id}
  {
    var more := nodes + [node];
    assert more[|nodes|] == node;
    assert forall i :: 0 <= i < |nodes| ==> more[i] == nodes[i];
  }

  // ------------------------------------------------------------------------------------------
  // Whatever the server answers
  // ------------------------------------------------------------------------------------------

  /** All nodes of the answers, in order. */
  function AllNodes(pages: seq<Fetch>): seq<Node> {
    if pages == [] then []
    else AllNodes(pages[..|pages| - 1]) + if pages[|pages| - 1].Page? then NodesOf(pages[|pages| - 1].edges) else []
  }

  ghost predicate Distinct(nodes: seq<Node>) {
    forall i, j :: 0 <= i < j < |nodes| ==> nodes[i].id != nodes[j].id
  }

  /** What holds while nodes are written, and at every end but a completed one. */
  ghost predicate Wrote(before: map<EntityKey, Row>, scope: Scope, p: Progress) {
    WroteDistinct(before, scope, p) && p.visited <= AllNodes(p.pages)
  }

  ghost predicate WroteDistinct(before: map<EntityKey, Row>, scope: Scope, p: Progress) {
    p.rows == UpsertAll(before, scope, p.visited) && Distinct(p.visited)
  }

  /** No answer contradicts the total the crawl goes by. */
  ghost predicate TotalsAgree(p: Progress) {
    forall page :: page in p.pages && page.Page? && Reported(page.totalCount).Some? ==>
      Reported(page.totalCount) == p.expected
  }

  lemma {:induction false} VisitFrame(scope: Scope, p: Progress, nodes: seq<Node>)
    ensures var q := VisitNodes(scope, p, nodes).1; q == p.(visited := q.visited, rows := q.rows)
    decreases |nodes|
  {
    if nodes != [] && nodes[0].id !in IdsOf(p.visited) && Strip(nodes[0].id) != "" {
      VisitFrame(scope, p.(visited := p.visited + [nodes[0]], rows := Upsert(p.rows, scope, nodes[0])), nodes[1..]);
    }
  }

  lemma DistinctAppend(nodes: seq<Node>, node: Node)
    requires Distinct(nodes) && node.id !in IdsOf(nodes)
    ensures Distinct(nodes + [node])
  {
    forall i | 0 <= i < |nodes| ensures nodes[i].id != node.id {
      assert nodes[i].id in IdsOf(nodes);
    }
  }

  lemma {:induction false} VisitWrites(before: map<EntityKey, Row>, scope: Scope, p: Progress, nodes: seq<Node>)
    requires WroteDistinct(before, scope, p)
    ensures WroteDistinct(before, scope, VisitNodes(scope, p, nodes).1)
    decreases |nodes|
  {
    if nodes != [] && nodes[0].id !in IdsOf(p.visited) && Strip(nodes[0].id) != "" {
      var more := p.visited + [nodes[0]];
      assert more[..|p.visited|] == p.visited;
      DistinctAppend(p.visited, nodes[0]);
      VisitWrites(before, scope, p.(visited := more, rows := Upsert(p.rows, scope, nodes[0])), nodes[1..]);
    }
  }

  lemma {:induction false} VisitPrefix(scope: Scope, p: Progress, nodes: seq<Node>)
    ensures var (visit, q) := VisitNodes(scope, p, nodes);
            q.visited <= p.visited + nodes && (visit == AllVisited ==> q.visited == p.visited + nodes)
    decreases |nodes|
  {
    if nodes == [] {
      assert p.visited + nodes == p.visited;
    } else if nodes[0].id !in IdsOf(p.visited) && Strip(nodes[0].id) != "" {
      assert p.visited + nodes == p.visited + [nodes[0]] + nodes[1..];
      VisitPrefix(scope, p.(visited := p.visited + [nodes[0]], rows := Upsert(p.rows, scope, nodes[0])), nodes[1..]);
    }
  }

  /** What holds at the start of every fetch. */
  ghost predicate Paging(before: map<EntityKey, Row>, scope: Scope, p: Progress) {
    && WroteDistinct(before, scope, p) && p.visited == AllNodes(p.pages)
    && TotalsAgree(p) && p.fetches == |p.pages| && p.fetches < p.page
  }

  lemma AbsorbFacts(before: map<EntityKey, Row>, scope: Scope, p: Progress, answer: Fetch)
    requires Paging(before, scope, p) && answer.Page?
    ensures var (visit, q) := Absorb(scope, p, answer);
            && Wrote(before, scope, q) && q.fetches == |q.pages| == p.fetches + 1 && q.page == p.page
            && (visit == AllVisited ==> q.visited == AllNodes(q.pages) && TotalsAgree(q))
  {
    var total, nodes := Reported(answer.totalCount), NodesOf(answer.edges);
    var pages := p.pages + [answer];
    assert pages[..|p.pages|] == p.pages;
    assert AllNodes(pages) == p.visited + nodes;
    if !(p.expected.Some? && total.Some? && total != p.expected) {
      var start := p.(fetches := p.fetches + 1, pages := pages,
                      expected := if p.expected.None? then total else p.expected);
      assert TotalsAgree(start);
      VisitWrites(before, scope, start, nodes);
      VisitPrefix(scope, start, nodes);
      VisitFrame(scope, start, nodes);
    }
  }

  /** What holds at the end. */
  ghost predicate Ended(before: map<EntityKey, Row>, scope: Scope, maxPages: int, o: Outcome) {
    && o.progress.fetches <= maxPages
    && if o.status == Completed then
         && o.progress.rows == MarkMissing(UpsertAll(before, scope, o.progress.visited), scope)
         && o.progress.visited == AllNodes(o.progress.pages) && Distinct(o.progress.visited)
         && TotalsAgree(o.progress) && o.progress.expected == Some(|o.progress.visited|)
       else Wrote(before, scope, o.progress)
  }

  lemma {:induction false} CrawlFacts(server: Server, scope: Scope, maxPages: int, before: map<EntityKey, Row>,
                                      p: Progress)
    requires Paging(before, scope, p) && p.fetches <= maxPages
    ensures Ended(before, scope, maxPages, Crawl(server, scope, maxPages, p))
    decreases maxPages - p.page
  {
    if p.page <= maxPages {
      var answer := Ask(server, scope.entityType, p.fetches, p.page);
      if answer.Page? {
        AbsorbFacts(before, scope, p, answer);
        var (visit, q) := Absorb(scope, p, answer);
        if visit == AllVisited {
          CrawlNext(server, scope, maxPages, p);
          var next := Following(answer, p.page);
          if next.Some? {
            CrawlFacts(server, scope, maxPages, before, q.(page := next.value));
          }
        }
      }
    }
  }

  /** Run ids are handed out once, so the partition holds no row of this run before it starts. */
  ghost predicate Fresh(rows: map<EntityKey, Row>, scope: Scope) {
    forall key :: key in rows && InScope(scope, key) ==> rows[key].lastRun != Some(scope.run)
  }

  lemma {:induction false} UpsertAllExactly(before: map<EntityKey, Row>, scope: Scope, nodes: seq<Node>, key: EntityKey)
    ensures var after := UpsertAll(before, scope, nodes);
            if InScope(scope, key) && exists n :: n in nodes && Strip(n.id) == key.externalId
            then key in after && after[key].present && after[key].lastRun == Some(scope.run)
                 && exists n :: n in nodes && Strip(n.id) == key.externalId && after[key].body == n.body
            else (key in after <==> key in before) && (key in before ==> after[key] == before[key])
  {
    if nodes != [] {
      var n := |nodes| - 1;
      UpsertAllExactly(before, scope, nodes[..n], key);
      assert nodes == nodes[..n] + [nodes[n]];
      assert key == KeyOf(scope, nodes[n].id) <==> InScope(scope, key) && Strip(nodes[n].id) == key.externalId;
    }
  }

  function StoredIds(nodes: seq<Node>): set<string> {
    set i | 0 <= i < |nodes| :: Strip(nodes[i].id)
  }

  function PresentIds(rows: map<EntityKey, Row>, scope: Scope): set<string> {
    set key | key in rows && InScope(scope, key) && rows[key].present :: key.externalId
  }

  /**
   * A completed synchronization leaves exactly the returned ids marked present in its partition; the
   * nodes are pairwise distinct, all those of all answers, and as many as every answer reports.
   */
  lemma CompletedMirrorsServer(server: Server, scope: Scope, maxPages: nat, before: map<EntityKey, Row>)
    requires Fresh(before, scope) && SyncType(server, scope, maxPages, before).status == Completed
    ensures var q := SyncType(server, scope, maxPages, before).progress;
            && PresentIds(q.rows, scope) == StoredIds(q.visited)
            && q.visited == AllNodes(q.pages) && Distinct(q.visited)
            && q.expected == Some(|q.visited|) && TotalsAgree(q)
  {
    var q := SyncType(server, scope, maxPages, before).progress;
    CrawlFacts(server, scope, maxPages, before, Begin(before));
    forall id ensures id in PresentIds(q.rows, scope) <==> id in StoredIds(q.visited) {
      var key := EntityKey(scope.target, scope.entityType, id);
      UpsertAllExactly(before, scope, q.visited, key);
      assert id in StoredIds(q.visited) <==> exists n :: n in q.visited && Strip(n.id) == id;
      assert id in PresentIds(q.rows, scope) <==> key in q.rows && q.rows[key].present;
    }
  }

  /** Any other outcome marks nothing missing: rows are only written as present. */
  lemma IncompleteMarksNothing(server: Server, scope: Scope, maxPages: nat, before: map<EntityKey, Row>, key: EntityKey)
    requires SyncType(server, scope, maxPages, before).status != Completed && key in before
    ensures var after := SyncType(server, scope, maxPages, before).progress.rows;
            key in after && (after[key] == before[key] || after[key].present)
  {
    CrawlFacts(server, scope, maxPages, before, Begin(before));
    UpsertAllExactly(before, scope, SyncType(server, scope, maxPages, before).progress.visited, key);
  }

  /** Rows of other targets and entity types keep their values, whatever the outcome. */
  lemma OtherPartitionsUntouched(server: Server, scope: Scope, maxPages: nat, before: map<EntityKey, Row>,
                                 key: EntityKey)
    requires !InScope(scope, key)
    ensures var after := SyncType(server, scope, maxPages, before).progress.rows;
            (key in after <==> key in before) && (key in before ==> after[key] == before[key])
  {
    CrawlFacts(server, scope, maxPages, before, Begin(before));
    UpsertAllExactly(before, scope, SyncType(server, scope, maxPages, before).progress.visited, key);
  }

  /** The page number grows with every answer, so no server is asked for more pages than allowed. */
  lemma FetchesBounded(server: Server, scope: Scope, maxPages: nat, before: map<EntityKey, Row>)
    ensures SyncType(server, scope, maxPages, before).progress.fetches <= maxPages
  {
    CrawlFacts(server, scope, maxPages, before, Begin(before));
  }

  ghost predicate SamePartition(a: map<EntityKey, Row>, b: map<EntityKey, Row>, scope: Scope) {
    forall key :: InScope(scope, key) ==> (key in a <==> key in b) && (key in a ==> a[key] == b[key])
  }

  lemma TypeKeepsPartition(server: Server, scope: Scope, maxPages: nat, before: map<EntityKey, Row>, other: Scope)
    requires (other.target, other.entityType) != (scope.target, scope.entityType)
    ensures SamePartition(before, SyncType(server, scope, maxPages, before).progress.rows, other)
  {
    var after := SyncType(server, scope, maxPages, before).progress.rows;
    forall key | InScope(other, key)
      ensures (key in before <==> key in after) && (key in before ==> before[key] == after[key])
    {
      OtherPartitionsUntouched(server, scope, maxPages, before, key);
    }
  }

  lemma {:induction false} RunKeepsPartition(server: Server, target: string, run: nat, types: seq<string>,
                                             maxPages: nat,
                                             before: map<EntityKey, Row>, other: Scope)
    requires other.target != target || other.entityType !in types
    ensures SamePartition(before, SyncAll(server, target, run, types, maxPages, before).rows, other)
  {
    if types != [] {
      var n := |types| - 1;
      assert types[n] in types;
      RunKeepsPartition(server, target, run, types[..n], maxPages, before, other);
      TypeKeepsPartition(server, Scope(target, types[n], run), maxPages,
                         SyncAll(server, target, run, types[..n], maxPages, before).rows, other);
    }
  }

  lemma SamePartitionSamePresent(a: map<EntityKey, Row>, b: map<EntityKey, Row>, scope: Scope)
    requires SamePartition(a, b, scope)
    ensures PresentIds(a, scope) == PresentIds(b, scope)
  {
    forall id ensures id in PresentIds(a, scope) <==> id in PresentIds(b, scope) {
      var key := EntityKey(scope.target, scope.entityType, id);
      assert InScope(scope, key);
      assert id in PresentIds(a, scope) <==> key in a && a[key].present;
      assert id in PresentIds(b, scope) <==> key in b && b[key].present;
    }
  }

  ghost predicate Mirrored(r: SyncRun, target: string, run: nat, types: seq<string>) {
    && |r.visited| == |types|
    && forall i :: 0 <= i < |types| ==> PresentIds(r.rows, Scope(target, types[i], run)) == StoredIds(r.visited[i])
  }

  lemma EarlierStaysMirrored(server: Server, scope: Scope, maxPages: nat, rows: map<EntityKey, Row>, other: Scope)
    requires (other.target, other.entityType) != (scope.target, scope.entityType)
    ensures PresentIds(SyncType(server, scope, maxPages, rows).progress.rows, other) == PresentIds(rows, other)
  {
    TypeKeepsPartition(server, scope, maxPages, rows, other);
    SamePartitionSamePresent(rows, SyncType(server, scope, maxPages, rows).progress.rows, other);
  }

  /** One more type, whose rows are fresh, is mirrored with the others. */
  lemma MirrorsOneMore(server: Server, target: string, run: nat, types: seq<string>, last: string, maxPages: nat,
                       r: SyncRun)
    requires Mirrored(r, target, run, types) && last !in types && r.status == Completed
    requires Fresh(r.rows, Scope(target, last, run))
    requires SyncNext(server, Scope(target, last, run), maxPages, r).status == Completed
    ensures Mirrored(SyncNext(server, Scope(target, last, run), maxPages, r), target, run, types + [last])
  {
    var scope := Scope(target, last, run);
    CompletedMirrorsServer(server, scope, maxPages, r.rows);
    forall i | 0 <= i < |types|
      ensures PresentIds(SyncType(server, scope, maxPages, r.rows).progress.rows, Scope(target, types[i], run))
           == StoredIds(r.visited[i])
    {
      assert types[i] in types;
      EarlierStaysMirrored(server, scope, maxPages, r.rows, Scope(target, types[i], run));
    }
  }

  predicate DistinctTypes(types: seq<string>) {
    forall i, j :: 0 <= i < j < |types| ==> types[i] != types[j]
  }

  /** A completed run leaves every requested partition with exactly the ids returned for it. */
  lemma {:induction false} CompletedRunMirrorsAll(server: Server, target: string, run: nat, types: seq<string>,
                                                  maxPages: nat, before: map<EntityKey, Row>)
    requires DistinctTypes(types) && forall t :: t in types ==> Fresh(before, Scope(target, t, run))
    requires SyncAll(server, target, run, types, maxPages, before).status == Completed
    ensures Mirrored(SyncAll(server, target, run, types, maxPages, before), target, run, types)
  {
    if types != [] {
      var init, last := types[..|types| - 1], types[|types| - 1];
      CompletedRunMirrorsAll(server, target, run, init, maxPages, before);
      RunKeepsPartition(server, target, run, init, maxPages, before, Scope(target, last, run));
      var r := SyncAll(server, target, run, init, maxPages, before);
      MirrorsOneMore(server, target, run, init, last, maxPages, r);
    }
  }

  // ------------------------------------------------------------------------------------------
  // Ids that differ only in surrounding space
  // ------------------------------------------------------------------------------------------

  ghost predicate StripDistinct(nodes: seq<Node>) {
    forall i, j :: 0 <= i < j < |nodes| ==> Strip(nodes[i].id) != Strip(nodes[j].id)
  }

  lemma {:induction false} StoredCount(nodes: seq<Node>)
    ensures |StoredIds(nodes)| <= |nodes|
    ensures |StoredIds(nodes)| == |nodes| <==> StripDistinct(nodes)
  {
    if nodes != [] {
      var n := |nodes| - 1;
      StoredCount(nodes[..n]);
      StoredNext(nodes);
    }
  }

  lemma StoredNext(nodes: seq<Node>)
    requires nodes != []
    ensures var n := |nodes| - 1;
            && StoredIds(nodes) == StoredIds(nodes[..n]) + {Strip(nodes[n].id)}
            && (StripDistinct(nodes) <==> StripDistinct(nodes[..n]) && Strip(nodes[n].id) !in StoredIds(nodes[..n]))
  {
    var n := |nodes| - 1;
    assert forall i :: 0 <= i < n ==> nodes[..n][i] == nodes[i];
    forall id ensures id in StoredIds(nodes) <==> id in StoredIds(nodes[..n]) + {Strip(nodes[n].id)} {
      if id in StoredIds(nodes[..n]) {
        var i :| 0 <= i < n && Strip(nodes[..n][i].id) == id;
        assert Strip(nodes[i].id) == id;
      }
    }
  }

  /**
   * The number of rows marked present equals the reported total exactly when no two returned ids
   * differ in surrounding space only: the crawl tells such ids apart, the ledger does not.
   */
  lemma PresentCountIff(server: Server, scope: Scope, maxPages: nat, before: map<EntityKey, Row>)
    requires Fresh(before, scope) && SyncType(server, scope, maxPages, before).status == Completed
    ensures var q := SyncType(server, scope, maxPages, before).progress;
            q.expected == Some(|PresentIds(q.rows, scope)|) <==> StripDistinct(q.visited)
  {
    CompletedMirrorsServer(server, scope, maxPages, before);
    StoredCount(SyncType(server, scope, maxPages, before).progress.visited);
  }

  function OnePage(entityType: string, call: nat, page: int): Fetch {
    Page([Entity(Node("a", "x")), Entity(Node(" a", "y"))], Some(2), Some(1), Some(1))
  }

  /** Two ids are reported and both seen; one row is present. */
  lemma SpacedIdsCollapse(scope: Scope)
    ensures var outcome := SyncType(OnePage, scope, 1, map[]);
            && outcome.status == Completed && outcome.progress.expected == Some(2)
            && |PresentIds(outcome.progress.rows, scope)| == 1
  {
    var a, b := Node("a", "x"), Node(" a", "y");
    var p := Begin(map[]);
    var answer := OnePage(scope.entityType, 0, 1);
    TwoNodes(a, b);
    StripSpaced();
    VisitTwo(scope, p.(fetches := 1, pages := p.pages + [answer], expected := Some(2)), a, b);
    assert Ask(OnePage, scope.entityType, 0, 1) == answer;
    CrawlNext(OnePage, scope, 1, p);
    CompletedMirrorsServer(OnePage, scope, 1, map[]);
    assert StoredIds([a, b]) == {"a"};
  }

  lemma StripSpaced()
    ensures Strip("a") == "a" && Strip(" a") == "a"
  {
    assert " a"[1..] == "a";
  }

  lemma TwoNodes(a: Node, b: Node)
    requires a.id != "" && b.id != ""
    ensures NodesOf([Entity(a), Entity(b)]) == [a, b]
  {
    assert [Entity(a), Entity(b)][1..] == [Entity(b)] && [Entity(b)][1..] == [];
    assert NodesOf([Entity(b)]) == [b] + NodesOf([]);
  }

  lemma VisitTwo(scope: Scope, p: Progress, a: Node, b: Node)
    requires p.visited == [] && a.id != b.id && Strip(a.id) != "" && Strip(b.id) != ""
    ensures var (visit, q) := VisitNodes(scope, p, [a, b]);
            visit == AllVisited && q.visited == [a, b] && q.expected == p.expected && q.pages == p.pages
  {
    var first := p.(visited := [a], rows := Upsert(p.rows, scope, a));
    IdsAppend([], a);
    assert [] + [a] == [a] && [a] + [b] == [a, b] && [a, b][1..] == [b] && [b][1..] == [];
    assert VisitNodes(scope, first, [b]).1.visited == [a, b];
  }

  // ------------------------------------------------------------------------------------------
  // A faithful server
  // ------------------------------------------------------------------------------------------

  function Pages(n: nat, size: nat): nat
    requires size > 0
  {
    (n + size - 1) / size
  }

  function Wrap(nodes: seq<Node>): (edges: seq<Edge>)
    ensures |edges| == |nodes|
  {
    seq(|nodes|, i requires 0 <= i < |nodes| => Entity(nodes[i]))
  }

  /** Serves the nodes in pages of the requested size and counts nodes and pages truly. */
  ghost predicate Faithful(server: Server, entityType: string, nodes: seq<Node>, size: nat, pages: nat)
    requires size > 0
  {
    forall call: nat, page: nat | page > 0 ::
      Ask(server, entityType, call, page)
      == Page(Wrap(Batch(nodes, size, page - 1)), Some(|nodes|), Some(pages), Some(page))
  }

  lemma {:induction false} NodesOfWrap(nodes: seq<Node>)
    requires forall n :: n in nodes ==> n.id != ""
    ensures NodesOf(Wrap(nodes)) == nodes
  {
    if nodes != [] {
      assert Wrap(nodes)[1..] == Wrap(nodes[1..]);
      NodesOfWrap(nodes[1..]);
    }
  }

  lemma {:induction false} AllAreVisited(scope: Scope, p: Progress, nodes: seq<Node>)
    requires Distinct(p.visited + nodes)
    requires forall n :: n in nodes ==> Strip(n.id) != ""
    ensures VisitNodes(scope, p, nodes).0 == AllVisited && VisitNodes(scope, p, nodes).1.visited == p.visited + nodes
    decreases |nodes|
  {
    if nodes == [] {
      assert p.visited + nodes == p.visited;
    } else {
      var more := p.visited + [nodes[0]];
      assert p.visited + nodes == more + nodes[1..];
      forall i | 0 <= i < |p.visited| ensures p.visited[i].id != nodes[0].id {
        assert (p.visited + nodes)[i] == p.visited[i] && (p.visited + nodes)[|p.visited|] == nodes[0];
      }
      AllAreVisited(scope, p.(visited := more, rows := Upsert(p.rows, scope, nodes[0])), nodes[1..]);
    }
  }

  /** `pages` is n / size, rounded up. */
  predicate IsPageCount(n: nat, size: nat, pages: nat) {
    n <= pages * size < n + size
  }

  lemma PageBounds(n: nat, size: nat, pages: nat, page: nat)
    requires size > 0 && IsPageCount(n, size, pages)
    ensures page < pages ==> page * size < n
    ensures page >= pages ==> page * size >= n
    ensures pages == 0 <==> n == 0
  {
    if page < pages {
      assert (page + 1) * size <= pages * size;
    } else {
      assert page * size >= pages * size;
    }
    assert pages >= 1 ==> pages * size >= size;
  }

  /** The pages before `page` are read. */
  ghost predicate Reading(nodes: seq<Node>, size: nat, p: Progress)
    requires size > 0
  {
    && p.page == p.fetches + 1 && p.visited == nodes[..Min(p.fetches * size, |nodes|)]
    && p.expected == (if p.fetches == 0 then None else Some(|nodes|))
  }

  /** The nodes of page k + 1. */
  function Batch(nodes: seq<Node>, size: nat, k: nat): seq<Node> {
    nodes[Min(k * size, |nodes|)..Min((k + 1) * size, |nodes|)]
  }

  lemma AbsorbSlice(scope: Scope, nodes: seq<Node>, low: nat, high: nat, p: Progress, answer: Fetch)
    requires low <= high <= |nodes| && p.visited == nodes[..low]
    requires p.expected == None || p.expected == Some(|nodes|)
    requires Distinct(nodes) && forall n :: n in nodes ==> Strip(n.id) != ""
    requires answer.Page? && answer.edges == Wrap(nodes[low..high]) && answer.totalCount == Some(|nodes|)
    ensures var (visit, q) := Absorb(scope, p, answer);
            visit == AllVisited && q.page == p.page && q.fetches == p.fetches + 1
            && q.visited == nodes[..high] && q.expected == Some(|nodes|)
  {
    var batch := nodes[low..high];
    assert nodes[..low] + batch == nodes[..high];
    NonBlankIsNonEmpty(batch);
    NodesOfWrap(batch);
    var start := p.(fetches := p.fetches + 1, pages := p.pages + [answer], expected := Some(|nodes|));
    AllAreVisited(scope, start, batch);
    VisitFrame(scope, start, batch);
  }

  lemma FaithfulPage(server: Server, scope: Scope, nodes: seq<Node>, size: nat, pages: nat, p: Progress)
    requires size > 0 && Faithful(server, scope.entityType, nodes, size, pages)
    requires Distinct(nodes) && forall n :: n in nodes ==> Strip(n.id) != ""
    requires Reading(nodes, size, p)
    ensures var answer := Ask(server, scope.entityType, p.fetches, p.page);
            && answer.Page? && Following(answer, p.page) == (if p.page >= pages then None else Some(p.page + 1))
            && var (visit, q) := Absorb(scope, p, answer);
               visit == AllVisited && q.fetches == p.fetches + 1 && Reading(nodes, size, q.(page := p.page + 1))
  {
    var n, k := |nodes|, p.fetches;
    var answer := Ask(server, scope.entityType, k, p.page);
    AbsorbSlice(scope, nodes, Min(k * size, n), Min((k + 1) * size, n), p, answer);
  }

  /** The server is faithful, and the nodes can all be stored. */
  ghost predicate Serves(server: Server, scope: Scope, nodes: seq<Node>, size: nat, pages: nat)
    requires size > 0
  {
    && Faithful(server, scope.entityType, nodes, size, pages) && IsPageCount(|nodes|, size, pages)
    && Distinct(nodes) && forall n :: n in nodes ==> Strip(n.id) != ""
  }

  /** What is known after one page of the crawl. */
  lemma CrawlPage(server: Server, scope: Scope, maxPages: nat, nodes: seq<Node>, size: nat, pages: nat, p: Progress)
    returns (q: Progress)
    requires size > 0 && Serves(server, scope, nodes, size, pages) && Reading(nodes, size, p) && p.page <= maxPages
    ensures q.fetches == p.fetches + 1 && Reading(nodes, size, q.(page := p.page + 1))
    ensures Crawl(server, scope, maxPages, p)
         == if p.page < pages then Crawl(server, scope, maxPages, q.(page := p.page + 1)) else Finished(scope, q)
  {
    q := Absorb(scope, p, Ask(server, scope.entityType, p.fetches, p.page)).1;
    FaithfulPage(server, scope, nodes, size, pages, p);
    CrawlNext(server, scope, maxPages, p);
  }

  lemma {:induction false} FaithfulCrawl(server: Server, scope: Scope, maxPages: nat, nodes: seq<Node>,
                                         size: nat, pages: nat, p: Progress)
    requires size > 0 && Serves(server, scope, nodes, size, pages) && Reading(nodes, size, p)
    requires (p.fetches == 0 || p.fetches < pages) && p.page <= maxPages && pages <= maxPages
    ensures Delivered(Crawl(server, scope, maxPages, p), nodes, pages)
    decreases maxPages - p.page
  {
    var q := CrawlPage(server, scope, maxPages, nodes, size, pages, p);
    if p.page < pages {
      FaithfulCrawl(server, scope, maxPages, nodes, size, pages, q.(page := p.page + 1));
    } else {
      LastPage(scope, nodes, size, pages, q, p.page);
    }
  }

  predicate Delivered(o: Outcome, nodes: seq<Node>, pages: nat) {
    o.status == Completed && o.progress.visited == nodes && o.progress.fetches == if nodes == [] then 1 else pages
  }

  lemma LastPage(scope: Scope, nodes: seq<Node>, size: nat, pages: nat, q: Progress, page: nat)
    requires size > 0 && IsPageCount(|nodes|, size, pages) && page >= pages
    requires page >= 1 && (page == 1 || page - 1 < pages)
    requires q.fetches == page && Reading(nodes, size, q.(page := page + 1))
    ensures Delivered(Finished(scope, q), nodes, pages)
  {
    PageBounds(|nodes|, size, pages, page);
    assert q.visited == nodes[..|nodes|] == nodes;
  }

  lemma NonBlankIsNonEmpty(nodes: seq<Node>)
    requires forall n :: n in nodes ==> Strip(n.id) != ""
    ensures forall n :: n in nodes ==> n.id != ""
  {
  }

  /**
   * Against a faithful server the synchronization completes with all nodes, in as many fetches as
   * there are pages, and in one fetch when there is nothing to mirror.
   */
  lemma FaithfulServerCompletes(server: Server, scope: Scope, maxPages: nat, before: map<EntityKey, Row>,
                                nodes: seq<Node>, size: nat)
    requires size > 0 && maxPages > 0 && |nodes| <= size * maxPages
    requires Faithful(server, scope.entityType, nodes, size, Pages(|nodes|, size))
    requires Distinct(nodes) && forall n :: n in nodes ==> Strip(n.id) != ""
    ensures Delivered(SyncType(server, scope, maxPages, before), nodes, Pages(|nodes|, size))
  {
    var n, pages := |nodes|, Pages(|nodes|, size);
    if pages > maxPages {
      PageBounds(n, size, pages, maxPages);
      assert false;
    }
    assert nodes[..0] == [];
    FaithfulCrawl(server, scope, maxPages, nodes, size, pages, Begin(before));
  }
}

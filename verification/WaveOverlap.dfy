/**
 * Synchronizations of the same partition that overlap (src/data_entry/waveapps_entity_sync.py): nothing
 * keeps a second run from writing and marking rows while the first one is still at work.
 */
module WaveOverlap {
  import opened Text
  import opened WaveMirror

  /** What a run does to the rows of the partition: it writes a node it was sent, or marks rows missing. */
  datatype Write = Seen(run: nat, node: Node) | Marked(run: nat)

  function Apply(rows: map<EntityKey, Row>, scope: Scope, w: Write): map<EntityKey, Row> {
    match w
    case Seen(run, node) => Upsert(rows, scope.(run := run), node)
    case Marked(run) => MarkMissing(rows, scope.(run := run))
  }

  /** The writes of several runs in the order in which they reach the ledger; the run of the scope does not matter. */
  function Play(rows: map<EntityKey, Row>, scope: Scope, writes: seq<Write>): map<EntityKey, Row> {
    if writes == [] then rows
    else Apply(Play(rows, scope, writes[..|writes| - 1]), scope, writes[|writes| - 1])
  }

  /** The nodes that one run wrote. */
  function OwnNodes(writes: seq<Write>, run: nat): seq<Node> {
    if writes == [] then []
    else
      var w := writes[|writes| - 1];
      OwnNodes(writes[..|writes| - 1], run) + if w.Seen? && w.run == run then [w.node] else []
  }

  predicate Sees(w: Write, run: nat, id: string) {
    w.Seen? && w.run == run && Strip(w.node.id) == id
  }

  /** Another run writes the same entity, or marks what it did not see itself. */
  predicate Undoes(w: Write, run: nat, id: string) {
    w.run != run && (w.Marked? || Strip(w.node.id) == id)
  }

  ghost predicate Keeps(writes: seq<Write>, run: nat, id: string) {
    exists i :: KeepsSince(writes, run, id, i)
  }

  /** The run writes the entity at `i`, and nothing undoes that later. */
  ghost predicate KeepsSince(writes: seq<Write>, run: nat, id: string, i: int) {
    0 <= i < |writes| && Sees(writes[i], run, id) && forall j :: i < j < |writes| ==> !Undoes(writes[j], run, id)
  }

  lemma KeepsSinceNext(writes: seq<Write>, run: nat, id: string, i: int)
    requires 0 <= i < |writes| - 1
    ensures var n := |writes| - 1;
            KeepsSince(writes, run, id, i) <==> KeepsSince(writes[..n], run, id, i) && !Undoes(writes[n], run, id)
  {
    var n := |writes| - 1;
    assert forall j :: 0 <= j < n ==> writes[..n][j] == writes[j];
  }

  lemma KeepsNext(writes: seq<Write>, run: nat, id: string)
    requires writes != []
    ensures var n := |writes| - 1;
            Keeps(writes, run, id) <==>
              Sees(writes[n], run, id) || (Keeps(writes[..n], run, id) && !Undoes(writes[n], run, id))
  {
    var n := |writes| - 1;
    forall i | 0 <= i < n
      ensures KeepsSince(writes, run, id, i) <==> KeepsSince(writes[..n], run, id, i) && !Undoes(writes[n], run, id)
    {
      KeepsSinceNext(writes, run, id, i);
    }
    assert KeepsSince(writes, run, id, n) <==> Sees(writes[n], run, id);
  }

  /** A row is present and this run's own. */
  predicate IsOwn(rows: map<EntityKey, Row>, scope: Scope, id: string) {
    var key := EntityKey(scope.target, scope.entityType, id);
    key in rows && rows[key].present && rows[key].lastRun == Some(scope.run)
  }

  lemma {:induction false} OwnIffKept(before: map<EntityKey, Row>, scope: Scope, writes: seq<Write>, id: string)
    requires Fresh(before, scope)
    ensures IsOwn(Play(before, scope, writes), scope, id) <==> Keeps(writes, scope.run, id)
  {
    if writes != [] {
      OwnIffKept(before, scope, writes[..|writes| - 1], id);
      KeepsNext(writes, scope.run, id);
    } else {
      assert InScope(scope, EntityKey(scope.target, scope.entityType, id));
    }
  }

  lemma PresentAfterMark(rows: map<EntityKey, Row>, scope: Scope, id: string)
    ensures id in PresentIds(MarkMissing(rows, scope), scope) <==> IsOwn(rows, scope, id)
  {
    var after, key := MarkMissing(rows, scope), EntityKey(scope.target, scope.entityType, id);
    assert id in PresentIds(after, scope) <==> key in after && after[key].present;
  }

  // ------------------------------------------------------------------------------------------
  // What a run writes does not depend on the rows
  // ------------------------------------------------------------------------------------------

  lemma {:induction false} SameVisit(scope: Scope, p: Progress, q: Progress, nodes: seq<Node>)
    requires q == p.(rows := q.rows)
    ensures var (a, b) := (VisitNodes(scope, p, nodes), VisitNodes(scope, q, nodes));
            a.0 == b.0 && b.1 == a.1.(rows := b.1.rows)
    decreases |nodes|
  {
    if nodes != [] && nodes[0].id !in IdsOf(p.visited) && Strip(nodes[0].id) != "" {
      SameVisit(scope, p.(visited := p.visited + [nodes[0]], rows := Upsert(p.rows, scope, nodes[0])),
                q.(visited := q.visited + [nodes[0]], rows := Upsert(q.rows, scope, nodes[0])), nodes[1..]);
    }
  }

  lemma {:induction false} SameCrawl(server: Server, scope: Scope, maxPages: int, p: Progress, q: Progress)
    requires q == p.(rows := q.rows)
    ensures var (a, b) := (Crawl(server, scope, maxPages, p), Crawl(server, scope, maxPages, q));
            a.status == b.status && b.progress == a.progress.(rows := b.progress.rows)
    decreases maxPages - p.page
  {
    if p.page <= maxPages {
      var answer := Ask(server, scope.entityType, p.fetches, p.page);
      if answer.Page? {
        var total := Reported(answer.totalCount);
        var expected := if p.expected.None? then total else p.expected;
        var pages := p.pages + [answer];
        SameVisit(scope, p.(fetches := p.fetches + 1, pages := pages, expected := expected),
                  q.(fetches := q.fetches + 1, pages := pages, expected := expected), NodesOf(answer.edges));
        var (visit, r) := Absorb(scope, p, answer);
        var next := Following(answer, p.page);
        if visit == AllVisited && next.Some? {
          SameCrawl(server, scope, maxPages, r.(page := next.value),
                    Absorb(scope, q, answer).1.(page := next.value));
        }
      }
    }
  }

  // ------------------------------------------------------------------------------------------
  // When an overlapped run still mirrors the server
  // ------------------------------------------------------------------------------------------

  ghost predicate SeesAny(writes: seq<Write>, run: nat, id: string) {
    exists i :: 0 <= i < |writes| && Sees(writes[i], run, id)
  }

  lemma SeesAnyNext(writes: seq<Write>, run: nat, id: string)
    requires writes != []
    ensures var n := |writes| - 1;
            SeesAny(writes, run, id) <==> SeesAny(writes[..n], run, id) || Sees(writes[n], run, id)
  {
    var n := |writes| - 1;
    assert forall i :: 0 <= i < n ==> writes[..n][i] == writes[i];
  }

  lemma {:induction false} OwnIds(writes: seq<Write>, run: nat, id: string)
    ensures id in StoredIds(OwnNodes(writes, run)) <==> SeesAny(writes, run, id)
  {
    if writes != [] {
      var n := |writes| - 1;
      OwnIds(writes[..n], run, id);
      SeesAnyNext(writes, run, id);
      if writes[n].Seen? && writes[n].run == run {
        StoredJoin(OwnNodes(writes[..n], run), [writes[n].node]);
        assert id in StoredIds([writes[n].node]) <==> Strip([writes[n].node][0].id) == id;
      } else {
        assert OwnNodes(writes, run) == OwnNodes(writes[..n], run);
      }
    }
  }

  lemma StoredJoin(a: seq<Node>, b: seq<Node>)
    ensures StoredIds(a + b) == StoredIds(a) + StoredIds(b)
  {
    forall id ensures id in StoredIds(a + b) <==> id in StoredIds(a) + StoredIds(b) {
      assert forall i :: 0 <= i < |a| ==> (a + b)[i] == a[i];
      assert forall i :: 0 <= i < |b| ==> (a + b)[|a| + i] == b[i];
    }
  }

  /**
   * Other runs write and mark in between. A run that completes then leaves exactly the ids it was sent
   * marked present if and only if, after it wrote an entity the last time, no other run wrote that
   * entity and no other run completed.
   */
  lemma OverlappedMirrorsIff(server: Server, scope: Scope, maxPages: nat, before: map<EntityKey, Row>,
                             writes: seq<Write>)
    requires Fresh(before, scope) && SyncType(server, scope, maxPages, before).status == Completed
    requires OwnNodes(writes, scope.run) == SyncType(server, scope, maxPages, before).progress.visited
    ensures var sent := StoredIds(SyncType(server, scope, maxPages, before).progress.visited);
            PresentIds(MarkMissing(Play(before, scope, writes), scope), scope) == sent
            <==> forall id :: id in sent ==> Keeps(writes, scope.run, id)
  {
    var sent := StoredIds(OwnNodes(writes, scope.run));
    var present := PresentIds(MarkMissing(Play(before, scope, writes), scope), scope);
    forall id ensures id in present <==> Keeps(writes, scope.run, id)
              ensures Keeps(writes, scope.run, id) ==> id in sent {
      PresentAfterMark(Play(before, scope, writes), scope, id);
      OwnIffKept(before, scope, writes, id);
      OwnIds(writes, scope.run, id);
    }
  }

  /** Two runs are sent the same entity; the first one to complete marks it missing. */
  lemma OverlapHidesEntity(target: string, entityType: string, node: Node)
    requires Strip(node.id) != ""
    ensures var scope := Scope(target, entityType, 1);
            PresentIds(MarkMissing(Play(map[], scope, [Seen(1, node), Seen(2, node)]), scope), scope) == {}
  {
    var scope, writes := Scope(target, entityType, 1), [Seen(1, node), Seen(2, node)];
    forall id ensures id !in PresentIds(MarkMissing(Play(map[], scope, writes), scope), scope) {
      PresentAfterMark(Play(map[], scope, writes), scope, id);
      OwnIffKept(map[], scope, writes, id);
      assert Strip(node.id) == id ==> Undoes(writes[1], 1, id);
    }
  }
}

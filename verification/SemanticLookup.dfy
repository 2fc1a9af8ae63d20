/** The semantic cache tier: a top-three query, a similarity threshold and a margin over the runner-up.

    The ordering of the query is exact; ties are broken arbitrarily. */
module SemanticLookup {
  import opened Prelude

  type RowId = nat

  const MARGIN := 0.02
  const QUERY_LIMIT := 3

  datatype Context = Context(
    workspace: nat,
    logicalModel: nat,
    namespaceVersion: int,
    systemPrompt: string,
    language: string,
    toolSchema: Option<string>,
    responseFormat: Option<string>)

  datatype Row = Row(
    context: Context,
    taskType: string,
    embedded: bool,
    expiresAt: int,
    invalidatedAt: Option<int>,
    hitCount: nat,
    lastHitAt: Option<int>)

  type Rows = map<RowId, Row>

  // The filters of the query. An absent tool schema or response format matches only an absent one.
  predicate Eligible(row: Row, context: Context, now: int) {
    && row.context == context
    && row.expiresAt > now
    && row.invalidatedAt.None?
    && row.embedded
    && row.taskType == "policy_qa"
  }

  function Candidates(rows: Rows, context: Context, now: int): set<RowId> {
    set id | id in rows && Eligible(rows[id], context, now)
  }

  // The rows ORDER BY distance LIMIT 3 may return.
  ghost predicate TopThree(ids: set<RowId>, score: RowId -> real, top: seq<RowId>) {
    && |top| <= QUERY_LIMIT
    && (forall i :: 0 <= i < |top| ==> top[i] in ids)
    && (forall i, j :: 0 <= i < j < |top| ==> top[i] != top[j] && score(top[i]) >= score(top[j]))
    && (forall id :: id in ids && id !in top ==>
          |top| == QUERY_LIMIT && forall i :: 0 <= i < |top| ==> score(top[i]) >= score(id))
  }

  function Decide(top: seq<RowId>, score: RowId -> real, threshold: real): Option<RowId> {
    if top == [] || score(top[0]) < threshold then None
    else if |top| > 1 && score(top[0]) - score(top[1]) < MARGIN then None
    else Some(top[0])
  }

  // The reference definition, over every eligible row.
  ghost predicate Wins(ids: set<RowId>, score: RowId -> real, threshold: real, id: RowId) {
    && id in ids && score(id) >= threshold
    && forall other :: other in ids && other != id ==> score(id) - score(other) >= MARGIN
  }

  // Main result: deciding from three rows is deciding from all of them. There is at most one
  // winner, since every winner is the answer.
  lemma TopThreeRefinesFullScan(ids: set<RowId>, score: RowId -> real, threshold: real, top: seq<RowId>)
    requires TopThree(ids, score, top)
    ensures forall id: RowId :: Decide(top, score, threshold) == Some(id) <==> Wins(ids, score, threshold, id)
  {
    forall id: RowId | Wins(ids, score, threshold, id)
      ensures Decide(top, score, threshold) == Some(id)
    {
      assert top != [];
    }
    if Decide(top, score, threshold).Some? {
      forall other | other in ids && other != top[0]
        ensures score(top[0]) - score(other) >= MARGIN
      {
        assert |top| > 1;
        if other in top {
          var i :| 0 <= i < |top| && top[i] == other;
          assert score(top[1]) >= score(other);
        }
      }
    }
  }

  // The answer depends on neither the order of the rows nor the breaking of ties.
  lemma TiesDoNotMatter(ids: set<RowId>, score: RowId -> real, threshold: real, top: seq<RowId>, other: seq<RowId>)
    requires TopThree(ids, score, top) && TopThree(ids, score, other)
    ensures Decide(top, score, threshold) == Decide(other, score, threshold)
  {
    TopThreeRefinesFullScan(ids, score, threshold, top);
    TopThreeRefinesFullScan(ids, score, threshold, other);
    if Decide(top, score, threshold).Some? {
      assert Wins(ids, score, threshold, Decide(top, score, threshold).value);
    } else if Decide(other, score, threshold).Some? {
      assert Wins(ids, score, threshold, Decide(other, score, threshold).value);
    }
  }

  // Three rows are one more than the decision needs, and one row would be too few: deciding from the first
  // alone serves a row that does not win exactly when a second one is closer than the margin.
  lemma OneRowIsNotEnough(ids: set<RowId>, score: RowId -> real, threshold: real, top: seq<RowId>)
    requires TopThree(ids, score, top) && top != []
    ensures |top| >= 2 ==> Decide(top[..2], score, threshold) == Decide(top, score, threshold)
    ensures (Decide(top[..1], score, threshold) == Some(top[0]) && !Wins(ids, score, threshold, top[0]))
            <==> score(top[0]) >= threshold && |top| > 1 && score(top[0]) - score(top[1]) < MARGIN
  {
    TopThreeRefinesFullScan(ids, score, threshold, top);
  }

  class SemanticIndex {
    var rows: Rows

    constructor (rows: Rows)
      ensures this.rows == rows
    {
      this.rows := rows;
    }

    // top is what the database returned for the query. A hit is counted on the winner alone.
    method SemanticFind(context: Context, now: int, threshold: real, score: RowId -> real, top: seq<RowId>)
        returns (found: Option<RowId>)
      requires TopThree(Candidates(rows, context, now), score, top)
      modifies this
      ensures forall id: RowId :: found == Some(id) <==> Wins(Candidates(old(rows), context, now), score, threshold, id)
      ensures found.Some? ==> found.value in old(rows)
      // Only a live, embedded answer to a policy question asked in the same context may win.
      ensures forall id: RowId :: id in Candidates(old(rows), context, now) <==>
                && id in old(rows) && var row := old(rows)[id];
                && row.context == context && now < row.expiresAt && row.invalidatedAt == None
                && row.embedded && row.taskType == "policy_qa"
      ensures rows == if found.None? then old(rows)
                      else old(rows)[found.value := old(rows)[found.value].(
                             hitCount := old(rows)[found.value].hitCount + 1, lastHitAt := Some(now))]
      ensures Candidates(rows, context, now) == Candidates(old(rows), context, now)
    {
      TopThreeRefinesFullScan(Candidates(rows, context, now), score, threshold, top);
      if top == [] {
        return None;
      }
      if score(top[0]) < threshold {
        return None;
      }
      if |top| > 1 && score(top[0]) - score(top[1]) < MARGIN {
        return None;
      }
      var entry := rows[top[0]];
      entry := entry.(hitCount := entry.hitCount + 1);
      entry := entry.(lastHitAt := Some(now));
      rows := rows[top[0] := entry];
      found := Some(top[0]);
    }
  }
}

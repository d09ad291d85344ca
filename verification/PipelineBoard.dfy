/** The pipeline board: open opportunities grouped into one column per active stage. */
module PipelineBoard {
  import opened Tables
  import opened Crm
  import opened CrmProofs

  datatype Column = Column(stage: Id, cards: seq<Id>)

  // ---- the two queries behind the board ----

  /** `listCrmPipelineStages`: the stages of a pipeline that are not archived. */
  ghost predicate IsStageList(s: Tabs, pipeline: Id, list: seq<Id>) {
    && NoDuplicates(list)
    && (forall i: Id :: i in list <==> i in s.stages && s.stages[i].pipeline == pipeline && !s.stages[i].archived)
    && (forall a, b :: 0 <= a < b < |list| ==>
          list[a] in s.stages && list[b] in s.stages && s.stages[list[a]].order <= s.stages[list[b]].order)
  }

  /** `listCrmOpportunityBoard`: the open opportunities of a pipeline, in any order the view returns. */
  ghost predicate IsCardList(s: Tabs, pipeline: Id, list: seq<Id>) {
    && NoDuplicates(list)
    && forall o: Id :: o in list <==> o in s.opps && s.opps[o].pipeline == pipeline && s.opps[o].status.OppOpen?
  }

  // ---- grouping ----

  /** The view's `stage_key` column; null when the stage row is missing. */
  function StageKey(s: Tabs, o: Id): (k: Option<string>) {
    if o in s.opps && s.opps[o].stage in s.stages then Some(s.stages[s.opps[o].stage].key) else None
  }

  function CardsWithKey(s: Tabs, cards: seq<Id>, key: string): (r: seq<Id>) {
    if cards == [] then []
    else
      var last := cards[|cards| - 1];
      CardsWithKey(s, cards[..|cards| - 1], key) + if StageKey(s, last) == Some(key) then [last] else []
  }

  /** The `grouped` map: a key is absent exactly when no card has it. */
  ghost predicate Groups(s: Tabs, cards: seq<Id>, grouped: map<string, seq<Id>>) {
    forall k: string :: CardsWithKey(s, cards, k) == if k in grouped then grouped[k] else []
  }

  method Group(s: Tabs, cards: seq<Id>) returns (grouped: map<string, seq<Id>>)
    ensures Groups(s, cards, grouped)
  {
    grouped := map[];
    for n := 0 to |cards|
      invariant Groups(s, cards[..n], grouped)
    {
      var key := StageKey(s, cards[n]);
      ghost var before := grouped;
      if key.Some? {
        grouped := grouped[key.value := (if key.value in grouped then grouped[key.value] else []) + [cards[n]]];
      }
      forall k: string ensures CardsWithKey(s, cards[..n + 1], k) == if k in grouped then grouped[k] else [] {
        assert CardsWithKey(s, cards[..n], k) == if k in before then before[k] else [];
        assert cards[..n + 1][..n] == cards[..n] && cards[..n + 1][n] == cards[n];
      }
    }
    assert cards[..|cards|] == cards;
  }

  method Board(s: Tabs, stages: seq<Id>, cards: seq<Id>) returns (columns: seq<Column>)
    requires forall i | i in stages :: i in s.stages
    ensures |columns| == |stages|
    ensures forall i | 0 <= i < |stages| ::
              columns[i] == Column(stages[i], CardsWithKey(s, cards, s.stages[stages[i]].key))
  {
    var grouped := Group(s, cards);
    columns := [];
    for n := 0 to |stages|
      invariant |columns| == n
      invariant forall i | 0 <= i < n ::
                  columns[i] == Column(stages[i], CardsWithKey(s, cards, s.stages[stages[i]].key))
    {
      var key := s.stages[stages[n]].key;
      columns := columns + [Column(stages[n], if key in grouped then grouped[key] else [])];
    }
  }

  // ---- the board shows each open opportunity exactly once ----

  lemma {:induction false} CardsAreTheMatches(s: Tabs, cards: seq<Id>, key: string)
    ensures forall o :: o in CardsWithKey(s, cards, key) <==> o in cards && StageKey(s, o) == Some(key)
    ensures NoDuplicates(cards) ==> NoDuplicates(CardsWithKey(s, cards, key))
  {
    if cards != [] {
      var last := cards[|cards| - 1];
      var init := cards[..|cards| - 1];
      assert cards == init + [last];
      CardsAreTheMatches(s, init, key);
    }
  }

  ghost predicate Shows(columns: seq<Column>, i: int, j: int, o: Id) {
    0 <= i < |columns| && 0 <= j < |columns[i].cards| && columns[i].cards[j] == o
  }

  /** In every reachable state the columns hold each open opportunity of the pipeline once, under its own stage,
      and hold nothing else. */
  lemma BoardShowsEachOnce(s: Tabs, pipeline: Id, stages: seq<Id>, cards: seq<Id>, columns: seq<Column>)
    requires PipelineInv(s) && IsStageList(s, pipeline, stages) && IsCardList(s, pipeline, cards)
    requires |columns| == |stages|
    requires forall i | 0 <= i < |stages| ::
               columns[i] == Column(stages[i], CardsWithKey(s, cards, s.stages[stages[i]].key))
    ensures forall o | o in cards :: exists i, j :: Shows(columns, i, j, o) && columns[i].stage == s.opps[o].stage
    ensures forall i, j, o :: Shows(columns, i, j, o) ==> o in cards && columns[i].stage == s.opps[o].stage
    ensures forall i, j, i', j', o :: Shows(columns, i, j, o) && Shows(columns, i', j', o) ==> i == i' && j == j'
  {
    forall o | o in cards
      ensures exists i, j :: Shows(columns, i, j, o) && columns[i].stage == s.opps[o].stage
    {
      var st := s.opps[o].stage;
      assert st in stages;
      var i :| 0 <= i < |stages| && stages[i] == st;
      CardsAreTheMatches(s, cards, s.stages[st].key);
      var j :| 0 <= j < |columns[i].cards| && columns[i].cards[j] == o;
      assert Shows(columns, i, j, o);
    }
    forall i, j, o | Shows(columns, i, j, o)
      ensures o in cards && columns[i].stage == s.opps[o].stage
      ensures forall j' | Shows(columns, i, j', o) :: j' == j
    {
      CardsAreTheMatches(s, cards, s.stages[stages[i]].key);
      assert o in columns[i].cards;
      assert stages[i] in stages;
      SameKeySameStage(s, stages[i], s.opps[o].stage);
    }
  }

  lemma SameKeySameStage(s: Tabs, a: Id, b: Id)
    requires PipelineInv(s) && a in s.stages && b in s.stages
    requires s.stages[a].pipeline == s.stages[b].pipeline && s.stages[a].key == s.stages[b].key
    ensures a == b
  {
    assert StageFits(s.stages, a, s.stages[a]);
  }

  // ---- which pipeline a reference names ----

  /** Names and ids are compared with the same text, so they share one space here. */
  datatype Pipeline = Pipeline(name: Id, isDefault: bool, updatedAt: int)
  type Pipelines = map<Id, Pipeline>

  function Matches(ps: Pipelines, ref: Id): (r: set<Id>) {
    set p | p in ps && (p == ref || ps[p].name == ref)
  }

  predicate Before(ps: Pipelines, a: Id, b: Id)
    requires a in ps && b in ps
  {
    if ps[a].isDefault != ps[b].isDefault then ps[a].isDefault else ps[a].updatedAt >= ps[b].updatedAt
  }

  /** WHERE id = ref OR name = ref ORDER BY is_default DESC, updated_at DESC LIMIT 1. */
  ghost predicate Resolves(ps: Pipelines, ref: Id, p: Id) {
    p in Matches(ps, ref) && forall q | q in Matches(ps, ref) :: Before(ps, p, q)
  }

  /** No other pipeline is called by this one's id. */
  ghost predicate NotShadowed(ps: Pipelines, p: Id) {
    forall q | q in ps && q != p :: ps[q].name != p
  }

  /** The board looks its pipeline up twice, the second time by id. It is sure to stay on the same pipeline if and
      only if every other pipeline named like that id comes strictly later in the lookup's order. */
  lemma SecondLookupIsStable(ps: Pipelines, p: Id)
    requires p in ps
    ensures (forall q | Resolves(ps, p, q) :: q == p)
            <==> (forall q | q in Matches(ps, p) && q != p :: !Before(ps, q, p))
    ensures NotShadowed(ps, p) ==> Resolves(ps, p, p) && forall q | Resolves(ps, p, q) :: q == p
  {
    var all := Matches(ps, p);
    assert p in all;
    var m := FirstMatch(ps, all);
    assert Resolves(ps, p, m);
    forall q | q in all && m == p && Before(ps, q, p) ensures Resolves(ps, p, q) {
      forall x | x in all ensures Before(ps, q, x) {
        assert Before(ps, p, x);
      }
    }
  }

  /** `createCrmPipeline`, not made the default. */
  function CreatePipeline(ps: Pipelines, p: Id, name: Id, now: int): (r: Pipelines) {
    if p in ps then ps else ps[p := Pipeline(name, false, now)]
  }

  /** It does stray: after creating pipeline 0 and then another one named like its id, the name of pipeline 0 finds
      pipeline 0, and its id finds the other. */
  lemma SecondLookupStrays()
    ensures var ps := CreatePipeline(CreatePipeline(map[], 0, 7, 0), 1, 0, 1);
      Resolves(ps, 7, 0) && Resolves(ps, 0, 1) && !Resolves(ps, 0, 0)
  {
    var ps := CreatePipeline(CreatePipeline(map[], 0, 7, 0), 1, 0, 1);
    assert Matches(ps, 0) == {0, 1} && Matches(ps, 7) == {0} && !Before(ps, 0, 1);
  }

  lemma {:induction false} FirstMatch(ps: Pipelines, among: set<Id>) returns (m: Id)
    requires among != {} && among <= ps.Keys
    ensures m in among && forall q | q in among :: Before(ps, m, q)
    decreases |among|
  {
    m :| m in among;
    var rest := among - {m};
    assert among == rest + {m};
    if rest != {} {
      var n := FirstMatch(ps, rest);
      if !Before(ps, m, n) { m := n; }
    }
  }
}

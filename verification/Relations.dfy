/** Relation edges of one chunk, and the candidates that a table's names propose. */
module Relations {
  import opened Wrappers
  import opened KeepBest
  import opened Sorting

  // ---------------------------------------------------------------- relation edges

  datatype RelationArtifact = RelationArtifact(
    subjectRef: string, surface: string, objectRef: string, confidence: real, source: string)

  function Triple(e: RelationArtifact): (string, string, string) {
    (e.subjectRef, e.surface, e.objectRef)
  }

  function Confidence(e: RelationArtifact): real {
    e.confidence
  }

  function Flatten(stages: seq<seq<RelationArtifact>>): seq<RelationArtifact> {
    if stages == [] then [] else Flatten(stages[..|stages| - 1]) + stages[|stages| - 1]
  }

  // `RelationPipeline.extract_chunk`, given what each stage extracts.
  method ExtractChunk(stages: seq<seq<RelationArtifact>>) returns (edges: seq<RelationArtifact>)
    ensures edges == Dedupe(Flatten(stages), Triple, Confidence)
  {
    var all: seq<RelationArtifact> := [];
    for i := 0 to |stages|
      invariant all == Flatten(stages[..i])
    {
      assert stages[..i + 1][..i] == stages[..i];
      all := all + stages[i];
    }
    assert stages[..|stages|] == stages;
    edges := DedupeKeepBest(all, Triple, Confidence);
  }

  function DedupeEach(stages: seq<seq<RelationArtifact>>): seq<seq<RelationArtifact>> {
    if stages == [] then []
    else DedupeEach(stages[..|stages| - 1]) + [Dedupe(stages[|stages| - 1], Triple, Confidence)]
  }

  /** Deduping the output of every stage first makes no difference. */
  lemma {:induction false} StagesMayDedupe(stages: seq<seq<RelationArtifact>>)
    ensures Dedupe(Flatten(DedupeEach(stages)), Triple, Confidence) == Dedupe(Flatten(stages), Triple, Confidence)
  {
    if stages != [] {
      var init, last := stages[..|stages| - 1], stages[|stages| - 1];
      StagesMayDedupe(init);
      var each := DedupeEach(init);
      assert DedupeEach(stages)[..|each|] == each;
      var d := Dedupe(last, Triple, Confidence);
      DedupeInParts(Flatten(each), d, Triple, Confidence);
      DedupeInParts(Flatten(init), d, Triple, Confidence);
      DedupeInParts(Flatten(init), last, Triple, Confidence);
      DedupeTwice(last);
    }
  }

  lemma DedupeTwice(xs: seq<RelationArtifact>)
    ensures Dedupe(Dedupe(xs, Triple, Confidence), Triple, Confidence) == Dedupe(xs, Triple, Confidence)
  {
    DedupeInParts(xs, [], Triple, Confidence);
    var d := Dedupe(xs, Triple, Confidence);
    assert Keys<RelationArtifact, (string, string, string)>([], Triple) == [];
    assert Dedupe<RelationArtifact, (string, string, string)>([], Triple, Confidence) == [];
    assert xs + [] == xs && d + [] == d;
  }

  // ---------------------------------------------------------------- concept candidates

  // A surface of the asset and the card it links to; `column` is "" for the table's own names.
  datatype Evidence = Evidence(card: string, text: string, confidence: real, kind: string, column: string)

  datatype Candidate = Candidate(card: string, confidence: real, text: string, columns: seq<string>, kind: string)

  datatype Surface = Surface(text: string, confidence: real, kind: string, column: string)

  function Card(e: Evidence): string {
    e.card
  }

  function Strength(e: Evidence): real {
    e.confidence
  }

  // The surfaces that link to a card.
  function Linked(surfaces: seq<Surface>, link: string -> Option<string>): seq<Evidence> {
    if surfaces == [] then []
    else
      var s := surfaces[|surfaces| - 1];
      Linked(surfaces[..|surfaces| - 1], link) +
      if link(s.text).None? then [] else [Evidence(link(s.text).value, s.text, s.confidence, s.kind, s.column)]
  }

  // The columns that gave evidence for the card, each once, in the order met.
  function Columns(es: seq<Evidence>, card: string): seq<string> {
    if es == [] then []
    else
      var before, e := Columns(es[..|es| - 1], card), es[|es| - 1];
      if e.card == card && e.column != "" && e.column !in before then before + [e.column] else before
  }

  // The candidate of a card: its first strongest evidence, with the columns of all its evidence.
  function CandidateOf(es: seq<Evidence>, card: string): Option<Candidate> {
    match Best(es, Card, Strength, card)
    case None => None
    case Some(e) => Some(Candidate(card, e.confidence, e.text, Columns(es, card), e.kind))
  }

  predicate StrongerFirst(a: Candidate, b: Candidate) {
    a.confidence > b.confidence || (a.confidence == b.confidence && StringLe(a.card, b.card))
  }

  // One candidate for each linked card.
  ghost predicate OnePerCard(cs: seq<Candidate>, es: seq<Evidence>) {
    && (forall c :: c in cs ==> CandidateOf(es, c.card) == Some(c))
    && (forall e :: e in es ==> exists c :: c in cs && c.card == e.card)
    && (forall i, j :: 0 <= i < j < |cs| ==> cs[i].card != cs[j].card)
  }

  // The dictionary holds the candidate of every card with evidence.
  ghost predicate Aggregates(aggregator: map<string, Candidate>, es: seq<Evidence>) {
    forall card :: CandidateOf(es, card) == if card in aggregator then Some(aggregator[card]) else None
  }

  // A further piece of evidence folded into what is there for its card.
  function Folded(existing: Option<Candidate>, e: Evidence): Candidate {
    match existing
    case None => Candidate(e.card, e.confidence, e.text, if e.column != "" then [e.column] else [], e.kind)
    case Some(c) =>
      var merged := if e.column != "" && e.column !in c.columns then c.columns + [e.column] else c.columns;
      if e.confidence > c.confidence then Candidate(e.card, e.confidence, e.text, merged, e.kind) else c.(columns := merged)
  }

  lemma FoldsOneMore(aggregator: map<string, Candidate>, es: seq<Evidence>, e: Evidence)
    requires Aggregates(aggregator, es)
    ensures var existing := if e.card in aggregator then Some(aggregator[e.card]) else None;
      Aggregates(aggregator[e.card := Folded(existing, e)], es + [e])
  {
    var existing := if e.card in aggregator then Some(aggregator[e.card]) else None;
    var next := aggregator[e.card := Folded(existing, e)];
    forall card ensures CandidateOf(es + [e], card) == if card in next then Some(next[card]) else None {
      assert CandidateOf(es, card) == if card in aggregator then Some(aggregator[card]) else None;
      NoBestNoColumns(es, card);
      BestOneMore(es, e, card);
      ColumnsOneMore(es, e, card);
      assert [] + [e.column] == [e.column];
      hide Best, Columns;
    }
  }

  lemma BestOneMore(es: seq<Evidence>, e: Evidence, card: string)
    ensures Best(es + [e], Card, Strength, card)
         == Better(Best(es, Card, Strength, card), if e.card == card then Some(e) else None, Strength)
  {
    assert (es + [e])[..|es|] == es;
  }

  lemma ColumnsOneMore(es: seq<Evidence>, e: Evidence, card: string)
    ensures Columns(es + [e], card) == var before := Columns(es, card);
      if e.card == card && e.column != "" && e.column !in before then before + [e.column] else before
  {
    assert (es + [e])[..|es|] == es;
  }

  method Aggregate(surfaces: seq<Surface>, link: string -> Option<string>)
      returns (aggregator: map<string, Candidate>, order: seq<string>)
    ensures order == Keys(Linked(surfaces, link), Card)
    ensures Aggregates(aggregator, Linked(surfaces, link))
  {
    aggregator, order := map[], [];
    for i := 0 to |surfaces|
      invariant order == Keys(Linked(surfaces[..i], link), Card)
      invariant Aggregates(aggregator, Linked(surfaces[..i], link))
    {
      assert surfaces[..i + 1][..i] == surfaces[..i];
      var s := surfaces[i];
      ghost var es := Linked(surfaces[..i], link);
      var anchor := link(s.text);
      if anchor.None? {
        assert es + [] == es;
        continue;
      }
      var card := anchor.value;
      ghost var e := Evidence(card, s.text, s.confidence, s.kind, s.column);
      FoldsOneMore(aggregator, es, e);
      KnownCards(aggregator, es, e);
      assert Linked(surfaces[..i + 1], link) == es + [e];
      hide Aggregates, Keys, Linked;
      if card !in aggregator {
        order := order + [card];
        aggregator := aggregator[card := Candidate(card, s.confidence, s.text, if s.column != "" then [s.column] else [], s.kind)];
      } else {
        var existing := aggregator[card];
        var merged := existing.columns;
        if s.column != "" && s.column !in merged { merged := merged + [s.column]; }
        if s.confidence > existing.confidence {
          aggregator := aggregator[card := Candidate(card, s.confidence, s.text, merged, s.kind)];
        } else {
          aggregator := aggregator[card := existing.(columns := merged)];
        }
      }
    }
    assert surfaces[..|surfaces|] == surfaces;
  }

  lemma KnownCards(aggregator: map<string, Candidate>, es: seq<Evidence>, e: Evidence)
    requires Aggregates(aggregator, es)
    ensures e.card in aggregator <==> e.card in Keys(es, Card)
    ensures Keys(es + [e], Card) == if e.card in aggregator then Keys(es, Card) else Keys(es, Card) + [e.card]
  {
    assert CandidateOf(es, e.card) == if e.card in aggregator then Some(aggregator[e.card]) else None;
    BestIs(es, Card, Strength, e.card);
    assert (es + [e])[..|es|] == es;
  }

  lemma {:induction false} NoBestNoColumns(es: seq<Evidence>, card: string)
    ensures Best(es, Card, Strength, card).None? ==> Columns(es, card) == []
  {
    if es != [] { NoBestNoColumns(es[..|es| - 1], card); }
  }

  lemma {:induction false} ColumnsAreDistinct(es: seq<Evidence>, card: string)
    ensures Distinct(Columns(es, card))
    ensures forall c :: c in Columns(es, card) <==> c != "" && exists i :: 0 <= i < |es| && es[i].card == card && es[i].column == c
  {
    if es != [] {
      var init := es[..|es| - 1];
      ColumnsAreDistinct(init, card);
      assert forall i :: 0 <= i < |init| ==> init[i] == es[i];
    }
  }

  /** `_run_linker`: sorted by falling confidence and then by card, with exactly one candidate for
      every card that some surface links to. */
  method RunLinker(surfaces: seq<Surface>, link: string -> Option<string>) returns (out: seq<Candidate>)
    ensures OnePerCard(out, Linked(surfaces, link))
    ensures forall i, j :: 0 <= i < j < |out| ==>
      out[i].confidence > out[j].confidence || (out[i].confidence == out[j].confidence && StringLe(out[i].card, out[j].card))
  {
    var aggregator, order := Aggregate(surfaces, link);
    ghost var es := Linked(surfaces, link);
    KeysDistinct(es, Card);
    var cs: seq<Candidate> := [];
    for i := 0 to |order|
      invariant |cs| == i && forall j :: 0 <= j < i ==> cs[j].card == order[j] && CandidateOf(es, cs[j].card) == Some(cs[j])
    {
      assert order[i] in aggregator by { BestIs(es, Card, Strength, order[i]); assert order[i] in order; }
      cs := cs + [aggregator[order[i]]];
    }
    OrderedOnePerCard(cs, order, es);
    out := Sort(cs, StrongerFirst);
    SortKeepsOnePerCard(cs, es);
    forall i, j | 0 <= i < j < |out|
      ensures out[i].confidence > out[j].confidence || (out[i].confidence == out[j].confidence && StringLe(out[i].card, out[j].card))
    {
      assert StrongerFirst(out[i], out[j]);
    }
  }

  lemma OrderedOnePerCard(cs: seq<Candidate>, order: seq<string>, es: seq<Evidence>)
    requires order == Keys(es, Card) && |cs| == |order| && Distinct(order)
    requires forall j :: 0 <= j < |cs| ==> cs[j].card == order[j] && CandidateOf(es, cs[j].card) == Some(cs[j])
    ensures OnePerCard(cs, es)
  {
    forall e | e in es ensures exists c :: c in cs && c.card == e.card {
      BestIs(es, Card, Strength, e.card);
      var i :| 0 <= i < |es| && es[i] == e;
      assert Card(es[i]) == e.card;
      var j :| 0 <= j < |order| && order[j] == e.card;
      assert cs[j] in cs;
    }
  }

  lemma CandidateOrder()
    ensures Total(StrongerFirst) && Transitive(StrongerFirst)
  {
    forall a: Candidate, b: Candidate ensures StrongerFirst(a, b) || StrongerFirst(b, a) { StringLeTotal(a.card, b.card); }
    forall a: Candidate, b: Candidate, c: Candidate | StrongerFirst(a, b) && StrongerFirst(b, c) ensures StrongerFirst(a, c) {
      if a.confidence == b.confidence == c.confidence { StringLeTransitive(a.card, b.card, c.card); }
    }
  }

  lemma SortKeepsOnePerCard(cs: seq<Candidate>, es: seq<Evidence>)
    requires OnePerCard(cs, es)
    ensures OnePerCard(Sort(cs, StrongerFirst), es) && Sorted(Sort(cs, StrongerFirst), StrongerFirst)
  {
    var out := Sort(cs, StrongerFirst);
    CandidateOrder();
    SortSorts(cs, StrongerFirst);
    SortKeepsElements(cs, StrongerFirst);
    SortPermutes(cs, StrongerFirst);
    forall i, j | 0 <= i < j < |out| ensures out[i].card != out[j].card {
      if out[i].card == out[j].card {
        assert out[i] in out && out[j] in out;
        assert out[i] == out[j];
        CountsTwice(out, i, j);
        OnceInList(cs, out[i]);
      }
    }
  }

  lemma {:induction false} OnceInList(cs: seq<Candidate>, c: Candidate)
    requires forall i, j :: 0 <= i < j < |cs| ==> cs[i].card != cs[j].card
    ensures multiset(cs)[c] <= 1
  {
    if cs != [] {
      var init := cs[..|cs| - 1];
      assert cs == init + [cs[|cs| - 1]];
      OnceInList(init, c);
      assert c == cs[|cs| - 1] ==> c !in init;
    }
  }

  // ---------------------------------------------------------------- in terms of what goes in

  lemma {:induction false} FlattenElements(stages: seq<seq<RelationArtifact>>)
    ensures forall e :: e in Flatten(stages) <==> exists i :: 0 <= i < |stages| && e in stages[i]
  {
    if stages != [] {
      var init := stages[..|stages| - 1];
      FlattenElements(init);
      assert forall i :: 0 <= i < |init| ==> init[i] == stages[i];
    }
  }

  /** The edges of a chunk come from its stages, no two with the same subject, surface and object, and
      of every extracted edge there is one with its three at least as confident. */
  lemma EdgesAreKeptOnce(stages: seq<seq<RelationArtifact>>, i: nat, e: RelationArtifact)
    requires i < |stages| && e in stages[i]
    ensures var out := Dedupe(Flatten(stages), Triple, Confidence);
      && (forall k :: 0 <= k < |out| ==> exists j :: 0 <= j < |stages| && out[k] in stages[j])
      && (forall k, l :: 0 <= k < l < |out| ==>
            out[k].subjectRef != out[l].subjectRef || out[k].surface != out[l].surface || out[k].objectRef != out[l].objectRef)
      && (exists k :: 0 <= k < |out| && out[k].subjectRef == e.subjectRef && out[k].surface == e.surface
            && out[k].objectRef == e.objectRef && out[k].confidence >= e.confidence)
  {
    hide Keys, Dedupe, Flatten;
    var all := Flatten(stages);
    var out := Dedupe(all, Triple, Confidence);
    FlattenElements(stages);
    assert e in all;
    DedupedElements(all);
    DedupedCovers(all, e);
  }

  lemma DedupedElements(all: seq<RelationArtifact>)
    ensures var out := Dedupe(all, Triple, Confidence);
      && (forall k :: 0 <= k < |out| ==> out[k] in all)
      && (forall k, l :: 0 <= k < l < |out| ==> Triple(out[k]) != Triple(out[l]))
  {
    var out := Dedupe(all, Triple, Confidence);
    hide Dedupe, Keys, Triple;
    forall k | 0 <= k < |out| ensures out[k] in all && k < |Keys(all, Triple)| && Triple(out[k]) == Keys(all, Triple)[k] {
      DedupeIs(all, Triple, Confidence, k);
    }
    KeysDistinct(all, Triple);
  }

  lemma DedupedCovers(all: seq<RelationArtifact>, e: RelationArtifact)
    requires e in all
    ensures var out := Dedupe(all, Triple, Confidence);
      exists k :: 0 <= k < |out| && Triple(out[k]) == Triple(e) && out[k].confidence >= e.confidence
  {
    var out := Dedupe(all, Triple, Confidence);
    DedupeKeeps(all, Triple, Confidence);
    assert Best(out, Triple, Confidence, Triple(e)) == Best(all, Triple, Confidence, Triple(e));
    hide Dedupe, Keys, Best, Triple;
    BestIs(all, Triple, Confidence, Triple(e));
    BestIs(out, Triple, Confidence, Triple(e));
    var j :| 0 <= j < |all| && all[j] == e;
    assert Triple(all[j]) == Triple(e);
    var best := Best(all, Triple, Confidence, Triple(e)).value;
    var i :| 0 <= i < |all| && IsFirstBest(all, Triple, Confidence, Triple(e), i) && all[i] == best;
    var k :| 0 <= k < |out| && IsFirstBest(out, Triple, Confidence, Triple(e), k) && out[k] == best;
    assert Confidence(all[j]) <= Confidence(all[i]);
  }

  // The evidence of surface `i`, if it links.
  predicate Gives(surfaces: seq<Surface>, link: string -> Option<string>, i: nat, e: Evidence) {
    && i < |surfaces| && link(surfaces[i].text) == Some(e.card) && e.text == surfaces[i].text
    && e.confidence == surfaces[i].confidence && e.kind == surfaces[i].kind && e.column == surfaces[i].column
  }

  // Evidence and the surfaces it comes from, in order.
  ghost predicate Traced(surfaces: seq<Surface>, link: string -> Option<string>, es: seq<Evidence>, at: seq<nat>) {
    && |at| == |es|
    && (forall k :: 0 <= k < |es| ==> Gives(surfaces, link, at[k], es[k]))
    && (forall k, l :: 0 <= k < l < |at| ==> at[k] < at[l])
    && (forall i :: 0 <= i < |surfaces| && link(surfaces[i].text).Some? ==> exists k :: 0 <= k < |at| && at[k] == i)
  }

  // The positions of the surfaces that link.
  function Linking(surfaces: seq<Surface>, link: string -> Option<string>): seq<nat> {
    if surfaces == [] then []
    else
      Linking(surfaces[..|surfaces| - 1], link) +
      if link(surfaces[|surfaces| - 1].text).None? then [] else [|surfaces| - 1]
  }

  lemma TracedOneMore(surfaces: seq<Surface>, s: Surface, link: string -> Option<string>, es: seq<Evidence>, at: seq<nat>, e: Evidence)
    requires Traced(surfaces, link, es, at)
    ensures link(s.text).None? ==> Traced(surfaces + [s], link, es, at)
    ensures Gives(surfaces + [s], link, |surfaces|, e) ==> Traced(surfaces + [s], link, es + [e], at + [|surfaces|])
  {
    var all, n := surfaces + [s], |surfaces|;
    forall k | 0 <= k < |es| ensures Gives(all, link, at[k], es[k]) && at[k] < n { assert Gives(surfaces, link, at[k], es[k]); }
    forall i | 0 <= i < n && link(all[i].text).Some? ensures exists k :: 0 <= k < |at| && at[k] == i { assert all[i] == surfaces[i]; }
    var more := at + [n];
    assert forall k :: 0 <= k < |at| ==> more[k] == at[k];
    assert more[|at|] == n && all[n] == s;
  }

  lemma {:induction false} LinkedFrom(surfaces: seq<Surface>, link: string -> Option<string>)
    ensures Traced(surfaces, link, Linked(surfaces, link), Linking(surfaces, link))
  {
    hide Traced;
    if surfaces == [] {
      assert Traced([], link, [], []) by { NothingTraced(link); }
    } else {
      var init, s := surfaces[..|surfaces| - 1], surfaces[|surfaces| - 1];
      assert surfaces == init + [s];
      LinkedFrom(init, link);
      var e := Evidence(if link(s.text).Some? then link(s.text).value else "", s.text, s.confidence, s.kind, s.column);
      TracedOneMore(init, s, link, Linked(init, link), Linking(init, link), e);
      if link(s.text).None? {
        assert Linked(surfaces, link) == Linked(init, link) && Linking(surfaces, link) == Linking(init, link);
      } else {
        assert Gives(surfaces, link, |init|, e);
      }
    }
  }

  lemma NothingTraced(link: string -> Option<string>)
    ensures Traced([], link, [], [])
  {
  }

  // The candidate is that of surface `i`: no surface that links to its card is more confident, and no
  // earlier one as confident.
  ghost predicate IsOfSurface(c: Candidate, surfaces: seq<Surface>, link: string -> Option<string>, i: nat) {
    && i < |surfaces|
    && link(surfaces[i].text) == Some(c.card) && c.text == surfaces[i].text
    && c.confidence == surfaces[i].confidence && c.kind == surfaces[i].kind
    && (forall j :: 0 <= j < |surfaces| && link(surfaces[j].text) == Some(c.card) ==> surfaces[j].confidence <= c.confidence)
    && (forall j :: 0 <= j < i && link(surfaces[j].text) == Some(c.card) ==> surfaces[j].confidence < c.confidence)
  }

  // The candidate is for the card that surface `i` links to, and has its column.
  predicate Accounts(c: Candidate, surfaces: seq<Surface>, link: string -> Option<string>, i: nat) {
    && i < |surfaces| && link(surfaces[i].text) == Some(c.card)
    && (surfaces[i].column != "" ==> surfaces[i].column in c.columns)
  }

  lemma FromFirstBest(surfaces: seq<Surface>, link: string -> Option<string>, es: seq<Evidence>, at: seq<nat>, c: Candidate)
    requires Traced(surfaces, link, es, at) && CandidateOf(es, c.card) == Some(c)
    ensures exists i :: IsOfSurface(c, surfaces, link, i)
  {
    hide Best, Columns, Keys;
    BestIs(es, Card, Strength, c.card);
    var k :| 0 <= k < |es| && IsFirstBest(es, Card, Strength, c.card, k) && es[k] == Best(es, Card, Strength, c.card).value;
    assert Gives(surfaces, link, at[k], es[k]) && Card(es[k]) == c.card && Strength(es[k]) == c.confidence;
    forall j | 0 <= j < |surfaces| && link(surfaces[j].text) == Some(c.card)
      ensures surfaces[j].confidence <= c.confidence && (j < at[k] ==> surfaces[j].confidence < c.confidence)
    {
      var l :| 0 <= l < |at| && at[l] == j;
      assert Gives(surfaces, link, at[l], es[l]) && Card(es[l]) == c.card && Strength(es[l]) == surfaces[j].confidence;
      if j < at[k] { assert l < k; }
    }
    assert IsOfSurface(c, surfaces, link, at[k]);
  }

  lemma SurfaceIsAccounted(surfaces: seq<Surface>, link: string -> Option<string>, es: seq<Evidence>, at: seq<nat>,
                           out: seq<Candidate>, i: nat)
    requires Traced(surfaces, link, es, at) && OnePerCard(out, es) && i < |surfaces| && link(surfaces[i].text).Some?
    ensures exists c :: c in out && Accounts(c, surfaces, link, i)
  {
    hide Best, Columns, Keys;
    var k :| 0 <= k < |at| && at[k] == i;
    assert Gives(surfaces, link, i, es[k]) && es[k] in es;
    var c :| c in out && c.card == es[k].card;
    assert CandidateOf(es, c.card) == Some(c);
    ColumnsAreDistinct(es, c.card);
    assert Accounts(c, surfaces, link, i);
  }

  /** The candidate of a card is the first and strongest of the surfaces that link to it, and every such
      surface has one, with its column. */
  lemma CandidatesComeFromSurfaces(surfaces: seq<Surface>, link: string -> Option<string>, out: seq<Candidate>)
    requires OnePerCard(out, Linked(surfaces, link))
    ensures forall c :: c in out ==> exists i :: IsOfSurface(c, surfaces, link, i)
    ensures forall i :: 0 <= i < |surfaces| && link(surfaces[i].text).Some? ==> exists c :: c in out && Accounts(c, surfaces, link, i)
  {
    var es := Linked(surfaces, link);
    var at := Linking(surfaces, link);
    LinkedFrom(surfaces, link);
    hide Linked, CandidateOf, Traced, IsOfSurface, Accounts, Gives;
    forall c | c in out ensures exists i :: IsOfSurface(c, surfaces, link, i) { FromFirstBest(surfaces, link, es, at, c); }
    forall i | 0 <= i < |surfaces| && link(surfaces[i].text).Some? ensures exists c :: c in out && Accounts(c, surfaces, link, i) {
      SurfaceIsAccounted(surfaces, link, es, at, out, i);
    }
  }
}

/** Small sessions at which the conditions of the pipeline results fail. */
module SessionExamples {
  import opened Options
  import opened Text
  import opened Records
  import opened SessionModel
  import opened SessionProofs
  import opened PipelineProofs
  import opened EndToEnd
  import B = BundleModel
  import P = BundleProofs
  import A = AdapterModel

  const MESSAGE := Event("m", 0, UserMessage("q"))
  const DRAFT := Event("d", 1, AssistantDraft("a", false, 1.0))
  const SOURCE := Event("s", 2, Source(Unresolved("z"), true, Current, Official, "l"))
  const CLAIM := Event("c", 3, Claim("d", "t", Fact, 0.5, false, ["z"]))
  const DOUBLE_CLAIM := Event("c", 3, Claim("d", "t", Fact, 0.5, false, ["z", "s"]))
  const CONTRADICTION := Event("s", 2, Contradiction("d", "t"))
  const SAME_CONTRADICTION := Event("c", 3, Contradiction("d", "t"))

  function Example(third: Event, fourth: Event): Session {
    Session(Expected, "i", "m", "d", false, false, true, [MESSAGE, DRAFT, third, fourth])
  }

  /** A citation of "z" that names no event, while a source has taken its placeholder
      as handle. */
  const SHADOWED := Example(SOURCE, CLAIM)

  /** A claim that cites both "z" and that source. */
  const CLASHING := Example(SOURCE, DOUBLE_CLAIM)

  /** Two contradictions of the draft with the same text. */
  const REPEATED := Example(CONTRADICTION, SAME_CONTRADICTION)

  // ----- they are valid -----

  lemma {:induction false} OneCharNonBlank(s: string)
    requires |s| == 1 && !IsSpace(s[0])
    ensures NonBlank(s)
  {
  }

  lemma {:induction false} LettersNonBlank()
    ensures NonBlank("m") && NonBlank("q") && NonBlank("d") && NonBlank("a") && NonBlank("s") && NonBlank("l")
    ensures NonBlank("c") && NonBlank("t") && NonBlank("z") && NonBlank("i") && NonBlank(Unresolved("z"))
  {
    OneCharNonBlank("m"); OneCharNonBlank("q"); OneCharNonBlank("d"); OneCharNonBlank("a"); OneCharNonBlank("s");
    OneCharNonBlank("l"); OneCharNonBlank("c"); OneCharNonBlank("t"); OneCharNonBlank("z"); OneCharNonBlank("i");
    UnresolvedNonBlank("z");
  }

  lemma {:induction false} EventsAreValid()
    ensures ValidEvent(MESSAGE) && ValidEvent(DRAFT) && ValidEvent(SOURCE) && ValidEvent(CLAIM)
    ensures ValidEvent(DOUBLE_CLAIM) && ValidEvent(CONTRADICTION) && ValidEvent(SAME_CONTRADICTION)
  {
    LettersNonBlank();
    hide NonBlank, Unresolved;
  }

  /** The third event is "s" and the fourth is "c", in sequence. */
  ghost predicate InPlace(third: Event, fourth: Event) {
    third.id == "s" && third.sequence == 2 && fourth.id == "c" && fourth.sequence == 3
  }

  lemma {:induction false} ExampleOrder(third: Event, fourth: Event)
    requires InPlace(third, fourth)
    ensures var es := Example(third, fourth).events;
      DistinctIds(es) && DistinctSequences(es) && InSequence(es)
  {
  }

  lemma {:induction false} ExampleMembers(third: Event, fourth: Event)
    ensures var es := Example(third, fourth).events;
      && (forall e :: e in es <==> e == MESSAGE || e == DRAFT || e == third || e == fourth)
      && HasMessage(es, "m") && HasDraft(es, "d")
  {
    var es := Example(third, fourth).events;
    assert es[0] == MESSAGE && es[1] == DRAFT && es[2] == third && es[3] == fourth;
    assert es[0] in es && es[1] in es && es[2] in es && es[3] in es;
  }

  /** References are in order when the third event is a source or the draft's own and
      the fourth the draft's own. */
  lemma {:induction false} ExampleReferences(third: Event, fourth: Event)
    requires third.body.Source? || BoundDraft(third.body) == Some("d")
    requires BoundDraft(fourth.body) == Some("d")
    ensures ValidReferences(Example(third, fourth).events)
  {
    ExampleMembers(third, fourth);
    hide Example, HasDraft, HasMessage;
  }

  lemma {:induction false} ExampleHeader(third: Event, fourth: Event)
    ensures var s := Example(third, fourth);
      && s.schema.Expected? && s.captureComplete && s.request == "m" && s.draft == "d"
      && NonBlank(s.id) && NonBlank(s.request) && NonBlank(s.draft)
  {
    LettersNonBlank();
    hide NonBlank, Unresolved;
  }

  lemma {:induction false} ExampleIsValid(third: Event, fourth: Event)
    requires InPlace(third, fourth) && ValidEvent(third) && ValidEvent(fourth)
    requires ValidReferences(Example(third, fourth).events)
    ensures ValidSession(Example(third, fourth))
  {
    hide Example, NonBlank, ValidEvent, HasDraft, HasMessage, DistinctIds, DistinctSequences, ValidReferences,
         InSequence, InPlace, Unresolved;
    EventsAreValid();
    ExampleHeader(third, fourth);
    ExampleOrder(third, fourth);
    ExampleMembers(third, fourth);
  }

  lemma {:induction false} ExampleIsSorted(third: Event, fourth: Event)
    requires InPlace(third, fourth) && ValidSession(Example(third, fourth))
    ensures SortEvents(Example(third, fourth).events) == Example(third, fourth).events
  {
    hide InSequence, SortEvents, ValidSession, Example, InPlace;
    ExampleOrder(third, fourth);
    SortedIsReady(Example(third, fourth));
    InSequenceIsCanonical(SortEvents(Example(third, fourth).events), Example(third, fourth).events);
  }

  lemma {:induction false} ExamplesAreValid()
    ensures ValidSession(SHADOWED) && SortEvents(SHADOWED.events) == SHADOWED.events
    ensures ValidSession(CLASHING) && SortEvents(CLASHING.events) == CLASHING.events
    ensures ValidSession(REPEATED) && SortEvents(REPEATED.events) == REPEATED.events
  {
    EventsAreValid();
    hide ValidEvent, ValidReferences, ValidSession, SortEvents;
    ExampleReferences(SOURCE, CLAIM);
    ExampleReferences(SOURCE, DOUBLE_CLAIM);
    ExampleReferences(CONTRADICTION, SAME_CONTRADICTION);
    ExampleIsValid(SOURCE, CLAIM);
    ExampleIsValid(SOURCE, DOUBLE_CLAIM);
    ExampleIsValid(CONTRADICTION, SAME_CONTRADICTION);
    ExampleIsSorted(SOURCE, CLAIM);
    ExampleIsSorted(SOURCE, DOUBLE_CLAIM);
    ExampleIsSorted(CONTRADICTION, SAME_CONTRADICTION);
  }

  // ----- exports that the next stage rejects -----

  lemma {:induction false} FilterTwo(x: Event, y: Event, p: Event -> bool)
    ensures p(x) && p(y) ==> Filter([x, y], p) == [x, y]
    ensures !p(x) && !p(y) ==> Filter([x, y], p) == []
  {
    assert [x, y][1..] == [y] && [y][1..] == [];
    assert Filter([y], p) == if p(y) then [y] else [];
  }

  lemma {:induction false} DraftsContradictions()
    ensures Contradictions(REPEATED.events, "d") == [CONTRADICTION, SAME_CONTRADICTION]
  {
    var p := ContradictionOf("d");
    assert REPEATED.events == [MESSAGE, DRAFT] + [CONTRADICTION, SAME_CONTRADICTION];
    assert p(CONTRADICTION) && p(SAME_CONTRADICTION) && !p(MESSAGE) && !p(DRAFT);
    hide Filter, ContradictionOf;
    FilterTwo(MESSAGE, DRAFT, p);
    FilterTwo(CONTRADICTION, SAME_CONTRADICTION, p);
    FilterAppend([MESSAGE, DRAFT], [CONTRADICTION, SAME_CONTRADICTION], p);
  }

  lemma {:induction false} RepeatedTexts()
    ensures !Distinct(ExportedContradictions(REPEATED.events, "d"))
  {
    DraftsContradictions();
    hide Contradictions;
    var texts := ExportedContradictions(REPEATED.events, "d");
    assert texts[0] == "t" && texts[1] == "t";
  }

  /** A valid session whose export is rejected because two contradictions of the
      draft have the same text. */
  lemma {:induction false} RepeatedTextsRejected()
    ensures ValidSession(REPEATED) && !B.ValidBundle(Export(REPEATED).value)
  {
    RepeatedTexts();
    assert REPEATED.draft == "d";
    hide *;
    ExamplesAreValid();
    ExportAcceptedIff(REPEATED);
  }

  lemma {:induction false} BothCitationsClash()
    ensures !NoClash(CLASHING.events, "d")
  {
    var es := CLASHING.events;
    ExampleMembers(SOURCE, DOUBLE_CLAIM);
    ExampleOrder(SOURCE, DOUBLE_CLAIM);
    hide Unresolved, HandleOf, DistinctIds;
    assert IsUnresolved(es, "z") && IsSourceEvent(es, "s");
    HandleIs(es, "s");
    assert HandleOf(es, "s") == Unresolved("z");
    assert Clash(es, DOUBLE_CLAIM.body.evidence[0], DOUBLE_CLAIM.body.evidence[1]);
    assert DOUBLE_CLAIM in es && BoundClaim(DOUBLE_CLAIM, "d");
  }

  /** A valid session whose export is rejected because two citations of one claim are
      exported under the same handle. */
  lemma {:induction false} ClashingClaimRejected()
    ensures ValidSession(CLASHING) && !B.ValidBundle(Export(CLASHING).value)
  {
    BothCitationsClash();
    assert CLASHING.draft == "d";
    hide *;
    ExamplesAreValid();
    ExportAcceptedIff(CLASHING);
  }

  // ----- an ALLOW without evidence -----

  /** A session the gate allows although the only citation of its claim, "z", names
      no event at all. */
  lemma {:induction false} ShadowedAllow()
    ensures Pipeline(SHADOWED) == Some(A.Allow)
    ensures CLAIM in SHADOWED.events && BoundClaim(CLAIM, SHADOWED.draft) && CLAIM.body.evidence == ["z"]
    ensures forall e :: e in SHADOWED.events ==> e.id != "z"
  {
    ShadowedNames();
    hide *;
    ExamplesAreValid();
    ExportIs(SHADOWED);
    ShadowedNoClash();
    ShadowedBundle();
    ExportAcceptedIff(SHADOWED);
    PipelineRuns(SHADOWED);
    P.AllowMeans(Export(SHADOWED).value);
  }

  lemma {:induction false} ShadowedNames()
    ensures CLAIM in SHADOWED.events && BoundClaim(CLAIM, SHADOWED.draft) && CLAIM.body.evidence == ["z"]
    ensures SHADOWED.draft == "d" && SHADOWED.request == "m"
    ensures forall e :: e in SHADOWED.events ==> e.id != "z"
    ensures Distinct<string>([])
  {
    ExampleMembers(SOURCE, CLAIM);
  }

  lemma {:induction false} ShadowedNoClash()
    ensures NoClash(SHADOWED.events, "d")
  {
    ExampleMembers(SOURCE, CLAIM);
    forall e | e in SHADOWED.events && BoundClaim(e, "d") ensures ClaimClashFree(SHADOWED.events, e.body.evidence) {
      assert e == CLAIM;
      NoSelfClash(SHADOWED.events, "z");
    }
  }

  lemma {:induction false} ShadowedParts()
    requires Find(SHADOWED.events, "m").Some? && Find(SHADOWED.events, "m").value.body.UserMessage?
    requires Find(SHADOWED.events, "d").Some? && Find(SHADOWED.events, "d").value.body.AssistantDraft?
    ensures var es, b := SHADOWED.events, Bundled(SHADOWED, SHADOWED.events);
      && b.sources == ExportedSources(es) && b.tools == ExportedTools(es) && b.claims == ExportedClaims(es, "d")
      && b.actions == ExportedProposals(es, "d") && b.contradictions == ExportedContradictions(es, "d")
      && !b.noSignal && b.intentAlignment == 1.0 && !b.highStakes && !b.requiresCurrent
  {
    hide ExportedSources, ExportedTools, ExportedClaims, ExportedProposals, ExportedContradictions, Unresolved;
    assert Find(SHADOWED.events[1..], "d") == Some(DRAFT);
  }

  lemma {:induction false} ShadowedBundle()
    requires Find(SHADOWED.events, "m").Some? && Find(SHADOWED.events, "m").value.body.UserMessage?
    requires Find(SHADOWED.events, "d").Some? && Find(SHADOWED.events, "d").value.body.AssistantDraft?
    ensures P.Deliverable(Bundled(SHADOWED, SHADOWED.events))
    ensures ExportedContradictions(SHADOWED.events, "d") == []
  {
    var es, b := SHADOWED.events, Bundled(SHADOWED, SHADOWED.events);
    ShadowedParts();
    ExampleMembers(SOURCE, CLAIM);
    hide Bundled, ExportedSources, ExportedTools, ExportedClaims, ExportedProposals, ExportedContradictions,
         Find, Unresolved, Example;
    NoContradictions(es, "d");
    ToolMembers(es);
    ClaimMembers(es, "d");
    ProposalMembers(es, "d");
    forall c | c in b.claims ensures P.Supported(c, b) {
      var e :| e in es && BoundClaim(e, "d") && ExportClaim(e, es) == c;
      assert e == CLAIM;
      ShadowedSupported(b);
    }
    hide P.Supported;
  }

  lemma {:induction false} ShadowedHandle(b: B.Bundle)
    requires b.sources == ExportedSources(SHADOWED.events) && b.tools == ExportedTools(SHADOWED.events)
    ensures P.KnownHandle(Unresolved("z"), b) && P.VerifiedHandle(Unresolved("z"), b)
    ensures HandleOf(SHADOWED.events, "z") == Unresolved("z")
  {
    var es := SHADOWED.events;
    ShadowedNames();
    ExampleMembers(SOURCE, CLAIM);
    ExampleOrder(SOURCE, CLAIM);
    assert SOURCE.body == Source(Unresolved("z"), true, Current, Official, "l") && !CLAIM.body.Source?;
    hide Unresolved, ExportedSources, ExportedTools, HandleOf, Example, DistinctIds, P.KnownHandle, P.VerifiedHandle,
         P.CurrentHandle, InSequence, DistinctSequences;
    assert IsUnresolved(es, "z");
    HandleIs(es, "z");
    HandleIff(es, b, Unresolved("z"));
  }

  lemma {:induction false} ShadowedSupported(b: B.Bundle)
    requires b.sources == ExportedSources(SHADOWED.events) && b.tools == ExportedTools(SHADOWED.events)
    requires !b.requiresCurrent
    ensures P.Supported(ExportClaim(CLAIM, SHADOWED.events), b)
  {
    hide Unresolved, HandleOf, ExportedSources, ExportedTools, Example, P.KnownHandle, P.VerifiedHandle,
         P.CurrentHandle;
    ShadowedHandle(b);
    assert ExportClaim(CLAIM, SHADOWED.events).handles == [Unresolved("z")];
  }
}

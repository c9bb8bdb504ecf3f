/** Sorting the log, and what the export keeps. */
module SessionProofs {
  import opened Options
  import opened Text
  import opened Records
  import opened SessionModel
  import B = BundleModel

  // ----- permutations -----

  lemma {:induction false} SameElements<T>(a: seq<T>, b: seq<T>, x: T)
    requires multiset(a) == multiset(b)
    ensures x in a <==> x in b
  {
    assert x in a <==> x in multiset(a);
    assert x in b <==> x in multiset(b);
  }

  lemma {:induction false} TwoPlaces<T>(s: seq<T>, x: T) returns (i: nat, j: nat)
    requires multiset(s)[x] >= 2
    ensures i < j < |s| && s[i] == s[j] == x
  {
    assert s == [s[0]] + s[1..];
    if s[0] == x {
      assert x in multiset(s[1..]);
      j :| 0 < j < |s| && s[j] == x;
      i := 0;
    } else {
      i, j := TwoPlaces(s[1..], x);
      i, j := i + 1, j + 1;
    }
  }

  lemma {:induction false} TwiceThere<T>(s: seq<T>, i: nat, j: nat)
    requires i < j < |s| && s[i] == s[j]
    ensures multiset(s)[s[i]] >= 2
  {
    assert s == s[..j] + [s[j]] + s[j + 1..];
    assert s[..j][i] == s[i];
    assert s[i] in multiset(s[..j]);
  }

  lemma {:induction false} DifferentKeys<T, K>(s: seq<T>, key: T -> K, i: nat, j: nat)
    requires DistinctBy(s, key) && i < j < |s|
    ensures s[i] != s[j]
  {
    assert key(s[i]) != key(s[j]);
  }

  /** A permutation of a list with distinct keys has distinct keys. */
  lemma {:induction false} PermutedDistinct<T, K>(a: seq<T>, b: seq<T>, key: T -> K)
    requires multiset(a) == multiset(b) && DistinctBy(a, key)
    ensures DistinctBy(b, key)
  {
    forall i, j | 0 <= i < j < |b| ensures key(b[i]) != key(b[j]) {
      if b[i] == b[j] {
        TwiceThere(b, i, j);
        var k, l := TwoPlaces(a, b[i]);
        DifferentKeys(a, key, k, l);
      } else {
        SameElements(a, b, b[i]);
        SameElements(a, b, b[j]);
        var k :| 0 <= k < |a| && a[k] == b[i];
        var l :| 0 <= l < |a| && a[l] == b[j];
        assert k < l ==> key(a[k]) != key(a[l]);
        assert l < k ==> key(a[l]) != key(a[k]);
      }
    }
  }

  lemma {:induction false} PermutedEvents(a: seq<Event>, b: seq<Event>)
    requires multiset(a) == multiset(b)
    ensures DistinctIds(a) <==> DistinctIds(b)
    ensures DistinctSequences(a) <==> DistinctSequences(b)
    ensures forall e :: e in a <==> e in b
  {
    var id, sequence := (e: Event) => e.id, (e: Event) => e.sequence;
    if DistinctIds(a) { PermutedDistinct(a, b, id); }
    if DistinctIds(b) { PermutedDistinct(b, a, id); }
    if DistinctSequences(a) { PermutedDistinct(a, b, sequence); }
    if DistinctSequences(b) { PermutedDistinct(b, a, sequence); }
    forall e ensures e in a <==> e in b { SameElements(a, b, e); }
  }

  // ----- sorting is canonical -----

  lemma {:induction false} InsertInSequence(es: seq<Event>, e: Event)
    requires InSequence(es) && forall i :: 0 <= i < |es| ==> es[i].sequence != e.sequence
    ensures InSequence(InsertEvent(es, e))
  {
    if es == [] || e.sequence < es[0].sequence {
      ConsInSequence(e, es);
    } else {
      var t := InsertEvent(es[1..], e);
      assert InsertEvent(es, e) == [es[0]] + t;
      hide InsertEvent;
      InsertInSequence(es[1..], e);
      InsertedMembers(es[1..], e);
      ConsInSequence(es[0], t);
    }
  }

  lemma {:induction false} ConsInSequence(e: Event, es: seq<Event>)
    requires InSequence(es) && (forall x :: x in es ==> e.sequence < x.sequence)
    ensures InSequence([e] + es)
  {
    assert forall i :: 0 <= i < |es| ==> es[i] in es;
  }

  lemma {:induction false} InsertedMembers(es: seq<Event>, e: Event)
    ensures forall x :: x in InsertEvent(es, e) ==> x == e || x in es
  {
    forall x | x in InsertEvent(es, e) ensures x == e || x in es {
      assert x in multiset(InsertEvent(es, e));
      assert x in multiset(es) + multiset{e};
    }
  }

  lemma {:induction false} SortedInSequence(es: seq<Event>)
    requires DistinctSequences(es)
    ensures InSequence(SortEvents(es))
  {
    if es != [] {
      var n := |es| - 1;
      SortedInSequence(es[..n]);
      forall i | 0 <= i < |SortEvents(es[..n])| ensures SortEvents(es[..n])[i].sequence != es[n].sequence {
        assert SortEvents(es[..n])[i] in multiset(SortEvents(es[..n]));
        assert SortEvents(es[..n])[i] in es[..n];
      }
      InsertInSequence(SortEvents(es[..n]), es[n]);
    }
  }

  lemma {:induction false} FirstIsFirst(a: seq<Event>, b: seq<Event>)
    requires InSequence(a) && InSequence(b) && multiset(a) == multiset(b) && a != []
    ensures b != [] && a[0] == b[0]
  {
    assert |multiset(a)| == |a| && |multiset(b)| == |b|;
    SameElements(a, b, a[0]);
    SameElements(a, b, b[0]);
    FirstIsLeast(b, a[0]);
    FirstIsLeast(a, b[0]);
  }

  lemma {:induction false} FirstIsLeast(es: seq<Event>, e: Event)
    requires InSequence(es) && e in es
    ensures e == es[0] || es[0].sequence < e.sequence
  {
  }

  lemma {:induction false} InSequenceIsCanonical(a: seq<Event>, b: seq<Event>)
    requires InSequence(a) && InSequence(b) && multiset(a) == multiset(b)
    ensures a == b
  {
    if a == [] {
      assert |multiset(b)| == 0;
    } else {
      FirstIsFirst(a, b);
      RestMultiset(a);
      RestMultiset(b);
      InSequenceRest(a);
      InSequenceRest(b);
      hide InSequence;
      InSequenceIsCanonical(a[1..], b[1..]);
      assert a == [a[0]] + a[1..] && b == [b[0]] + b[1..];
    }
  }

  lemma {:induction false} InSequenceRest(es: seq<Event>)
    requires InSequence(es) && es != []
    ensures InSequence(es[1..])
  {
  }

  lemma {:induction false} RestMultiset<T>(s: seq<T>)
    requires s != []
    ensures multiset(s[1..]) == multiset(s) - multiset{s[0]}
  {
    assert s == [s[0]] + s[1..];
  }

  // ----- the export -----

  lemma {:induction false} FindMeans(es: seq<Event>, id: string)
    requires DistinctIds(es)
    ensures forall e :: Find(es, id) == Some(e) <==> e in es && e.id == id
  {
    if es != [] {
      FindMeans(es[1..], id);
      assert forall i :: 0 < i < |es| ==> es[0].id != es[i].id;
    }
  }

  /** Valid events, already in sequence. */
  ghost predicate Ready(s: Session, es: seq<Event>) {
    ValidSession(s) && multiset(es) == multiset(s.events) && InSequence(es)
  }

  /** What is known of the events once they are in sequence. */
  lemma {:induction false} ReadyFacts(s: Session, es: seq<Event>)
    requires Ready(s, es)
    ensures forall e :: e in es <==> e in s.events
    ensures DistinctIds(es) && (forall e :: e in es ==> ValidEvent(e)) && ValidReferences(es)
    ensures Find(es, s.request).Some? && Find(es, s.request).value.body.UserMessage?
    ensures Find(es, s.draft).Some? && Find(es, s.draft).value.body.AssistantDraft?
    ensures Find(es, s.request).value in es && Find(es, s.draft).value in es
  {
    PermutedEvents(es, s.events);
    FindMeans(es, s.request);
    FindMeans(es, s.draft);
    var r :| r in s.events && r.id == s.request && r.body.UserMessage?;
    var d :| d in s.events && d.id == s.draft && d.body.AssistantDraft?;
    assert Find(es, s.request) == Some(r) && Find(es, s.draft) == Some(d);
    SameReferences(es, s.events);
  }

  lemma {:induction false} SameReferences(a: seq<Event>, b: seq<Event>)
    requires (forall e :: e in a <==> e in b) && ValidReferences(b)
    ensures ValidReferences(a)
  {
    hide ValidEvent;
    forall e | e in a && BoundDraft(e.body).Some? ensures HasDraft(a, BoundDraft(e.body).value) {
      assert HasDraft(b, BoundDraft(e.body).value);
      var d :| d in b && d.id == BoundDraft(e.body).value && d.body.AssistantDraft?;
      assert d in a;
    }
    forall e | e in a && e.body.Authorization?
      ensures forall i :: 0 <= i < |e.body.authorized| ==> Authorizable(a, e.body.authorized[i], e.sequence)
    {
      forall i | 0 <= i < |e.body.authorized| ensures Authorizable(a, e.body.authorized[i], e.sequence) {
        assert Authorizable(b, e.body.authorized[i], e.sequence);
        var t :| t in b && t.id == e.body.authorized[i] && (t.body.Tool? || t.body.Proposal?)
                 && e.sequence < t.sequence;
        assert t in a;
      }
    }
  }

  lemma {:induction false} SortedIsReady(s: Session)
    requires ValidSession(s)
    ensures Ready(s, SortEvents(s.events))
  {
    SortedInSequence(s.events);
  }

  /** The stage: None when the session is not valid. */
  ghost function Export(s: Session): Option<B.Bundle> {
    if !ValidSession(s) then None else
    SortedIsReady(s);
    ReadyFacts(s, SortEvents(s.events));
    Some(Bundled(s, SortEvents(s.events)))
  }

  /** The order in which events were logged does not matter: every permutation is
      accepted or rejected alike and exports the same bundle. */
  lemma {:induction false} OrderDoesNotMatter(s: Session, events: seq<Event>)
    requires multiset(events) == multiset(s.events)
    ensures ValidSession(s) <==> ValidSession(s.(events := events))
    ensures Export(s) == Export(s.(events := events))
  {
    var t := s.(events := events);
    assert t.(events := s.events) == s;
    if ValidSession(s) { SameVerdict(s, events); }
    if ValidSession(t) { SameVerdict(t, s.events); }
    if ValidSession(s) {
      SortedIsReady(s);
      SortedIsReady(t);
      InSequenceIsCanonical(SortEvents(s.events), SortEvents(events));
    }
  }

  lemma {:induction false} SameVerdict(s: Session, events: seq<Event>)
    requires multiset(events) == multiset(s.events) && ValidSession(s)
    ensures ValidSession(s.(events := events))
  {
    PermutedEvents(events, s.events);
    SameReferences(events, s.events);
    var r :| r in s.events && r.id == s.request && r.body.UserMessage?;
    var d :| d in s.events && d.id == s.draft && d.body.AssistantDraft?;
    assert r in events && d in events;
    hide ValidReferences, ValidEvent;
  }
}

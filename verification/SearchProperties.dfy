/**
 What the search promises: children found once each, none missed below the limit, and a walk that
 visits the enumeration in order and then reports exhaustion.
 */
module SearchProperties {
  import opened Wrappers
  import opened Orders
  import opened Graph
  import opened Architecture
  import opened Mutation
  import opened Search

  // The candidate came out of the stream by the mutation it records.
  ghost predicate Genuine(t: Task, apply: Proposal -> Outcome, stream: seq<Proposal>, c: Candidate)
  {
    c.proposal in stream && apply(c.proposal) == Child(c.child) && c == CandidateOf(t, c.child, c.proposal)
  }

  ghost predicate Lists(t: Task, list: seq<Candidate>, child: Genome)
  {
    exists i :: 0 <= i < |list| && t.h.genome(list[i].child) == t.h.genome(child)
  }

  lemma {:induction false} FoundFacts(t: Task, apply: Proposal -> Outcome, stream: seq<Proposal>, seen: set<string>,
      room: nat)
    ensures var list := Found(t, apply, stream, seen, room);
            && |list| <= room
            && (forall c :: c in list ==> Genuine(t, apply, stream, c))
            && (forall c :: c in list ==> t.h.genome(c.child) != t.h.genome(t.parent) && t.h.genome(c.child) !in seen)
            && (forall i, j :: 0 <= i < j < |list| ==> t.h.genome(list[i].child) != t.h.genome(list[j].child))
    decreases |stream|
  {
    if stream != [] && room != 0 {
      var outcome, rest := apply(stream[0]), stream[1..];
      if !outcome.Child? || t.h.genome(outcome.genome) == t.h.genome(t.parent) || t.h.genome(outcome.genome) in seen {
        FoundFacts(t, apply, rest, seen, room);
        assert forall c :: c in Found(t, apply, rest, seen, room) ==> Genuine(t, apply, rest, c);
      } else {
        var d := t.h.genome(outcome.genome);
        FoundFacts(t, apply, rest, seen + {d}, room - 1);
        var more := Found(t, apply, rest, seen + {d}, room - 1);
        assert forall c :: c in more ==> Genuine(t, apply, rest, c);
        var list := [CandidateOf(t, outcome.genome, stream[0])] + more;
        forall i, j | 0 <= i < j < |list|
          ensures t.h.genome(list[i].child) != t.h.genome(list[j].child)
        {
          assert list[j] == more[j - 1] && more[j - 1] in more;
        }
      }
    }
  }

  // Below the limit nothing of the stream is missed.
  lemma {:induction false} FoundIsComplete(t: Task, apply: Proposal -> Outcome, stream: seq<Proposal>,
      seen: set<string>, room: nat, p: Proposal)
    requires p in stream && apply(p).Child? && |Found(t, apply, stream, seen, room)| < room
    ensures var g := apply(p).genome;
            t.h.genome(g) == t.h.genome(t.parent) || t.h.genome(g) in seen ||
              Lists(t, Found(t, apply, stream, seen, room), g)
    decreases |stream|
  {
    var outcome, rest, g := apply(stream[0]), stream[1..], apply(p).genome;
    var list := Found(t, apply, stream, seen, room);
    if !outcome.Child? || t.h.genome(outcome.genome) == t.h.genome(t.parent) || t.h.genome(outcome.genome) in seen {
      if p != stream[0] {
        FoundIsComplete(t, apply, rest, seen, room, p);
      }
    } else {
      var d := t.h.genome(outcome.genome);
      var more := Found(t, apply, rest, seen + {d}, room - 1);
      assert list[0] == CandidateOf(t, outcome.genome, stream[0]);
      if p == stream[0] || t.h.genome(g) == d {
        assert t.h.genome(list[0].child) == t.h.genome(g);
      } else {
        FoundIsComplete(t, apply, rest, seen + {d}, room - 1, p);
        if Lists(t, more, g) {
          var i :| 0 <= i < |more| && t.h.genome(more[i].child) == t.h.genome(g);
          assert list[i + 1] == more[i];
        }
      }
    }
  }

  // Every candidate is an admitted canonical child, different from the parent and from the others,
  // at most `limit` of them; below the limit every child of the stream is among them.
  lemma EnumeratesOnce(h: Hashes, a: Genome, p: Policy, admitted: set<string>, bounds: SearchBounds)
    requires CollisionFree(h) && Enumerate(h, a, p, admitted, bounds).Candidates?
    ensures var list, t := Enumerate(h, a, p, admitted, bounds).list, TaskOf(h, a, p, admitted, bounds);
            && |list| <= p.limit
            && (forall c :: c in list ==>
                  Mutate(t.parent, c.proposal, t.admitted, t.bounds) == Child(c.child) && c.child != t.parent)
            && (forall c :: c in list ==> Accepted(c.child, Admission(t.admitted, t.bounds)))
            && (forall i, j :: 0 <= i < j < |list| ==> list[i].child != list[j].child)
            && (|list| < p.limit ==> forall q :: q in ProposalStream(t.parent, p) ==> Represented(t, list, q))
  {
    var list, t := Enumerate(h, a, p, admitted, bounds).list, TaskOf(h, a, p, admitted, bounds);
    var stream := ProposalStream(t.parent, p);
    FoundFacts(t, ApplyOf(t), stream, {}, p.limit);
    CanonicalIsIdempotent(a, Admission(t.admitted, t.bounds));
    forall c | c in list
      ensures Mutate(t.parent, c.proposal, t.admitted, t.bounds) == Child(c.child) && c.child != t.parent
      ensures Accepted(c.child, Admission(t.admitted, t.bounds))
    {
      assert Genuine(t, ApplyOf(t), stream, c);
      ChildIsAdmitted(t.parent, c.proposal, t.admitted, t.bounds);
    }
    if |list| < p.limit {
      forall q | q in stream
        ensures Represented(t, list, q)
      {
        if ApplyOf(t)(q).Child? {
          FoundIsComplete(t, ApplyOf(t), stream, {}, p.limit, q);
        }
      }
    }
  }

  // A proposal fails, leaves the parent as it is, or its child is listed.
  ghost predicate Represented(t: Task, list: seq<Candidate>, q: Proposal)
  {
    var outcome := Mutate(t.parent, q, t.admitted, t.bounds);
    outcome.Child? ==> outcome.genome == t.parent || exists i :: 0 <= i < |list| && list[i].child == outcome.genome
  }

  // --- the walk -----------------------------------------------------------------------------------------

  ghost predicate DistinctDigests(h: Hashes, list: seq<Candidate>)
  {
    forall i, j :: 0 <= i < j < |list| ==> DigestOf(h, list[i]) != DigestOf(h, list[j])
  }

  function Unobserved(h: Hashes, list: seq<Candidate>, observed: set<string>): seq<Candidate>
  {
    if list == [] then []
    else (if DigestOf(h, list[0]) in observed then [] else [list[0]]) + Unobserved(h, list[1..], observed)
  }

  // Ask for the next candidate, record its identity, and ask again.
  ghost function Visit(h: Hashes, list: seq<Candidate>, observed: set<string>): seq<Candidate>
    decreases |Unobserved(h, list, observed)|
  {
    match FirstUnobserved(h, list, observed)
    case Proposed(c) =>
      RecordShrinks(h, list, observed);
      [c] + Visit(h, list, observed + {DigestOf(h, c)})
    case _ => []
  }

  lemma {:induction false} RecordKeepsRest(h: Hashes, list: seq<Candidate>, observed: set<string>, d: string)
    ensures |Unobserved(h, list, observed + {d})| <= |Unobserved(h, list, observed)|
    ensures (forall c :: c in list ==> DigestOf(h, c) != d) ==>
      Unobserved(h, list, observed + {d}) == Unobserved(h, list, observed)
    decreases |list|
  {
    if list != [] {
      RecordKeepsRest(h, list[1..], observed, d);
    }
  }

  lemma {:induction false} RecordShrinks(h: Hashes, list: seq<Candidate>, observed: set<string>)
    ensures FirstUnobserved(h, list, observed).Proposed? <==> Unobserved(h, list, observed) != []
    ensures FirstUnobserved(h, list, observed).Proposed? ==>
              var c := FirstUnobserved(h, list, observed).candidate;
              && Unobserved(h, list, observed)[0] == c
              && |Unobserved(h, list, observed + {DigestOf(h, c)})| < |Unobserved(h, list, observed)|
              && (DistinctDigests(h, list) ==>
                 Unobserved(h, list, observed + {DigestOf(h, c)}) == Unobserved(h, list, observed)[1..])
    decreases |list|
  {
    if list != [] {
      var rest := list[1..];
      if DigestOf(h, list[0]) in observed {
        RecordShrinks(h, rest, observed);
        assert DistinctDigests(h, list) ==> DistinctDigests(h, rest);
      } else {
        RecordKeepsRest(h, rest, observed, DigestOf(h, list[0]));
        if DistinctDigests(h, list) {
          forall c | c in rest
            ensures DigestOf(h, c) != DigestOf(h, list[0])
          {
            var i :| 0 <= i < |rest| && rest[i] == c;
            assert list[i + 1] == c;
          }
        }
      }
    }
  }

  // From any record of observations the walk visits exactly the unobserved candidates, in order.
  lemma {:induction false} VisitsUnobserved(h: Hashes, list: seq<Candidate>, observed: set<string>)
    requires DistinctDigests(h, list)
    ensures Visit(h, list, observed) == Unobserved(h, list, observed)
    decreases |Unobserved(h, list, observed)|
  {
    RecordShrinks(h, list, observed);
    if FirstUnobserved(h, list, observed).Proposed? {
      var c := FirstUnobserved(h, list, observed).candidate;
      VisitsUnobserved(h, list, observed + {DigestOf(h, c)});
    }
  }

  lemma {:induction false} NothingObserved(h: Hashes, list: seq<Candidate>)
    ensures Unobserved(h, list, {}) == list
    decreases |list|
  {
    if list != [] {
      NothingObserved(h, list[1..]);
    }
  }

  // The search reports exhaustion exactly when every candidate has been observed.
  lemma {:induction false} ExhaustedWhenAllObserved(h: Hashes, list: seq<Candidate>, observed: set<string>)
    ensures FirstUnobserved(h, list, observed) == Exhausted <==> forall c :: c in list ==> DigestOf(h, c) in observed
    decreases |list|
  {
    if list != [] {
      ExhaustedWhenAllObserved(h, list[1..], observed);
      assert list == [list[0]] + list[1..];
    }
  }

  // Starting with no observations the walk visits the whole enumeration, each candidate once, and is exhausted then.
  lemma WalkIsEnumeration(h: Hashes, a: Genome, p: Policy, admitted: set<string>, bounds: SearchBounds)
    requires CollisionFree(h) && Enumerate(h, a, p, admitted, bounds).Candidates?
    ensures var list := Enumerate(h, a, p, admitted, bounds).list;
            && DistinctDigests(h, list) && Visit(h, list, {}) == list
            && FirstUnobserved(h, list, set c | c in list :: DigestOf(h, c)) == Exhausted
  {
    var list, t := Enumerate(h, a, p, admitted, bounds).list, TaskOf(h, a, p, admitted, bounds);
    FoundFacts(t, ApplyOf(t), ProposalStream(t.parent, p), {}, p.limit);
    assert DistinctDigests(h, list);
    VisitsUnobserved(h, list, {});
    NothingObserved(h, list);
    ExhaustedWhenAllObserved(h, list, set c | c in list :: DigestOf(h, c));
  }
}

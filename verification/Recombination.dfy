/**
 Composites of two archived localizers: how their answers are merged, which composite is chosen, and
 what a chain of promotions can amount to.
 */
module Recombination {
  import opened Wrappers
  import opened Localizer
  import Orders

  // --- merging two answers -----------------------------------------------------------------------------------

  predicate Near(a: Location, b: Location)
  {
    a.path == b.path && -(WINDOW / 2) <= a.line - b.line <= WINDOW / 2
  }

  // No kept location in the same file stands within half a window.
  predicate AddsAPlace(location: Location, kept: seq<Location>)
  {
    forall k :: 0 <= k < |kept| ==> !Near(kept[k], location)
  }

  predicate IsNew(location: Location, kept: seq<Location>) { location !in kept }

  type Admission = (Location, seq<Location>) -> bool

  // What is refused stays refused as more is kept, and what is kept is refused from then on.
  ghost predicate Settles(admit: Admission)
  {
    (forall x, shorter, longer :: Extends(shorter, longer) && admit(x, longer) ==> admit(x, shorter)) &&
    (forall x, kept :: x in kept ==> !admit(x, kept))
  }

  predicate Extends(shorter: seq<Location>, longer: seq<Location>) { shorter <= longer }

  // Append what is admitted, as long as there is room.
  function Fill(kept: seq<Location>, source: seq<Location>, admit: Admission): seq<Location>
    decreases |source|
  {
    if source == [] then kept
    else if |kept| < MAX_LOCATIONS && admit(source[0], kept) then Fill(kept + [source[0]], source[1..], admit)
    else Fill(kept, source[1..], admit)
  }

  method FillFrom(start: seq<Location>, source: seq<Location>, admit: Admission) returns (kept: seq<Location>)
    ensures kept == Fill(start, source, admit)
  {
    kept := start;
    var i := 0;
    while i < |source|
      invariant 0 <= i <= |source|
      invariant Fill(start, source, admit) == Fill(kept, source[i..], admit)
    {
      assert source[i..][1..] == source[i + 1..];
      if |kept| < MAX_LOCATIONS && admit(source[i], kept) { kept := kept + [source[i]]; }
      i := i + 1;
    }
  }

  function Lead(first: seq<Location>, lead: nat): seq<Location> { if lead <= |first| then first[..lead] else first }

  function Rest(first: seq<Location>, lead: nat): seq<Location> { if lead <= |first| then first[lead..] else [] }

  // The lead of the first member, then the locations that add a place: the second member's, then the first's.
  function Places(first: seq<Location>, second: seq<Location>, lead: nat): seq<Location>
  {
    Fill(Fill(Lead(first, lead), second, AddsAPlace), Rest(first, lead), AddsAPlace)
  }

  function FirstSix(s: seq<Location>): seq<Location> { if |s| <= MAX_LOCATIONS then s else s[..MAX_LOCATIONS] }

  // Then what remains of both.  Only a lead of more than six makes the final cut matter.
  function Merged(first: seq<Location>, second: seq<Location>, lead: nat): seq<Location>
  {
    FirstSix(Fill(Places(first, second, lead), Rest(first, lead) + second, IsNew))
  }

  method Merge(first: seq<Location>, second: seq<Location>, lead: nat) returns (kept: seq<Location>)
    ensures kept == Merged(first, second, lead)
  {
    kept := FillFrom(Lead(first, lead), second, AddsAPlace);
    kept := FillFrom(kept, Rest(first, lead), AddsAPlace);
    kept := FillFrom(kept, Rest(first, lead) + second, IsNew);
    kept := FirstSix(kept);
  }

  lemma {:induction false} FillShape(kept: seq<Location>, source: seq<Location>, admit: Admission)
    ensures var r := Fill(kept, source, admit);
      && kept <= r
      && (|kept| <= MAX_LOCATIONS ==> |r| <= MAX_LOCATIONS)
      && (forall x :: x in r ==> x in kept || x in source)
      && (forall j :: |kept| <= j < |r| ==> admit(r[j], r[..j]))
    decreases |source|
  {
    if source != [] {
      if |kept| < MAX_LOCATIONS && admit(source[0], kept) {
        FillShape(kept + [source[0]], source[1..], admit);
        var r := Fill(kept + [source[0]], source[1..], admit);
        assert r[..|kept|] == kept;
      } else {
        FillShape(kept, source[1..], admit);
      }
    }
  }

  // With room to spare, nothing that is left out would still be admitted.
  lemma {:induction false} FillIsMaximal(kept: seq<Location>, source: seq<Location>, admit: Admission)
    requires Settles(admit)
    ensures var r := Fill(kept, source, admit);
      |r| < MAX_LOCATIONS ==> forall x :: x in source ==> !admit(x, r)
    decreases |source|
  {
    if source != [] {
      var next := if |kept| < MAX_LOCATIONS && admit(source[0], kept) then kept + [source[0]] else kept;
      FillIsMaximal(next, source[1..], admit);
      FillShape(next, source[1..], admit);
      var r := Fill(kept, source, admit);
      assert Extends(next, r);
      if |r| < MAX_LOCATIONS {
        assert !admit(source[0], next);
      }
    }
  }

  lemma PlacesSettle()
    ensures Settles(AddsAPlace)
  {
    forall x, shorter, longer | Extends(shorter, longer) && AddsAPlace(x, longer) ensures AddsAPlace(x, shorter) {
      forall k | 0 <= k < |shorter| ensures !Near(shorter[k], x) { assert longer[k] == shorter[k]; }
    }
    forall x, kept | x in kept ensures !AddsAPlace(x, kept) {
      var k :| 0 <= k < |kept| && kept[k] == x;
      assert Near(kept[k], x);
    }
  }

  lemma NewSettles()
    ensures Settles(IsNew)
  {
  }

  // Every one of these locations is in another file or more than twenty lines away.
  ghost predicate Apart(x: Location, kept: seq<Location>)
  {
    forall l :: l in kept ==> l.path != x.path || l.line > x.line + 20 || l.line < x.line - 20
  }

  lemma ApartMeans(x: Location, kept: seq<Location>)
    ensures AddsAPlace(x, kept) <==> Apart(x, kept)
  {
    if AddsAPlace(x, kept) {
      forall l | l in kept
        ensures l.path != x.path || l.line > x.line + 20 || l.line < x.line - 20
      {
        var k :| 0 <= k < |kept| && kept[k] == l;
        assert !Near(kept[k], x);
      }
    } else {
      var k :| 0 <= k < |kept| && Near(kept[k], x);
      assert kept[k] in kept;
    }
  }

  /** What a merge keeps: at most six locations, all from its members, the lead first; then, before anything else, every
      further location that stands apart from those kept, as long as there is room: the other member's before the rest
      of the first; then new ones; and with room to spare, every location of both members. */
  lemma MergeMeaning(first: seq<Location>, second: seq<Location>, lead: nat)
    requires lead < MAX_LOCATIONS
    ensures var r, n := Merged(first, second, lead), if lead <= |first| then lead else |first|;
      var middle, places := Fill(first[..n], second, AddsAPlace), Places(first, second, lead);
      && |r| <= 6 && first[..n] <= middle <= places <= r
      && (forall x :: x in middle[n..] ==> x in second) && (forall x :: x in places[|middle|..] ==> x in first[n..])
      && (forall x :: x in r ==> x in first || x in second)
      && (forall j :: n <= j < |places| ==> Apart(r[j], r[..j]))
      && (|middle| < 6 ==> forall x :: x in second ==> !Apart(x, middle))
      && (|places| < 6 ==> forall x :: x in second || x in first[n..] ==> !Apart(x, places))
      && (forall j :: |places| <= j < |r| ==> r[j] !in r[..j])
      && (|r| < 6 ==> forall x :: x in first || x in second ==> x in r)
  {
    var n := if lead <= |first| then lead else |first|;
    assert Lead(first, lead) == first[..n] && Rest(first, lead) == first[n..];
    MergeKeeps(first, second, lead);
    PlacesComeFrom(first, second, lead);
    ApartMeansAll();
  }

  lemma ApartMeansAll()
    ensures forall x, kept :: AddsAPlace(x, kept) <==> Apart(x, kept)
  {
    forall x, kept
      ensures AddsAPlace(x, kept) <==> Apart(x, kept)
    {
      ApartMeans(x, kept);
    }
  }

  // The places after the lead: the second member's first, then the rest of the first's.
  lemma PlacesComeFrom(first: seq<Location>, second: seq<Location>, lead: nat)
    ensures var head := Lead(first, lead);
      var middle, places := Fill(head, second, AddsAPlace), Places(first, second, lead);
      && head <= middle <= places
      && (forall x :: x in middle[|head|..] ==> x in second)
      && (forall x :: x in places[|middle|..] ==> x in Rest(first, lead))
      && (|middle| < MAX_LOCATIONS ==> forall x :: x in second ==> !AddsAPlace(x, middle))
  {
    var head := Lead(first, lead);
    FillBeyond(head, second, AddsAPlace);
    FillBeyond(Fill(head, second, AddsAPlace), Rest(first, lead), AddsAPlace);
    PlacesSettle();
    FillIsMaximal(head, second, AddsAPlace);
  }

  // What is appended comes from the source.
  lemma {:induction false} FillBeyond(kept: seq<Location>, source: seq<Location>, admit: Admission)
    ensures kept <= Fill(kept, source, admit)
    ensures forall x :: x in Fill(kept, source, admit)[|kept|..] ==> x in source
    decreases |source|
  {
    if source != [] {
      if |kept| < MAX_LOCATIONS && admit(source[0], kept) {
        FillBeyond(kept + [source[0]], source[1..], admit);
        var r := Fill(kept + [source[0]], source[1..], admit);
        assert r[|kept|..] == [source[0]] + r[|kept| + 1..];
      } else {
        FillBeyond(kept, source[1..], admit);
      }
    }
  }

  // A lead that leaves no room is all there is.
  lemma LongLead(first: seq<Location>, second: seq<Location>, lead: nat)
    requires 6 <= lead && 6 <= |first|
    ensures Merged(first, second, lead) == first[..6]
  {
    FullStays(Lead(first, lead), second, AddsAPlace);
    FullStays(Lead(first, lead), Rest(first, lead), AddsAPlace);
    FullStays(Lead(first, lead), Rest(first, lead) + second, IsNew);
  }

  lemma {:induction false} FullStays(kept: seq<Location>, source: seq<Location>, admit: Admission)
    requires |kept| >= MAX_LOCATIONS
    ensures Fill(kept, source, admit) == kept
    decreases |source|
  {
    if source != [] {
      FullStays(kept, source[1..], admit);
    }
  }

  lemma MergeKeeps(first: seq<Location>, second: seq<Location>, lead: nat)
    requires lead < MAX_LOCATIONS
    ensures var r := Merged(first, second, lead);
      var head, places := Lead(first, lead), Places(first, second, lead);
      && |r| <= MAX_LOCATIONS && head <= places <= r
      && (forall x :: x in r ==> x in first || x in second)
      && (forall j :: |head| <= j < |places| ==> AddsAPlace(r[j], r[..j]))
      && (|places| < MAX_LOCATIONS ==> forall x :: x in second || x in Rest(first, lead) ==> !AddsAPlace(x, places))
      && (forall j :: |places| <= j < |r| ==> r[j] !in r[..j])
      && (|r| < MAX_LOCATIONS ==> forall x :: x in first || x in second ==> x in r)
  {
    var head, rest := Lead(first, lead), Rest(first, lead);
    var middle := Fill(head, second, AddsAPlace);
    var places := Places(first, second, lead);
    PlacesSettle();
    NewSettles();
    assert first == head + rest;
    FillShape(head, second, AddsAPlace);
    FillShape(middle, rest, AddsAPlace);
    FillShape(places, rest + second, IsNew);
    FillIsMaximal(head, second, AddsAPlace);
    FillIsMaximal(middle, rest, AddsAPlace);
    FillIsMaximal(places, rest + second, IsNew);
    PlacesAdd(first, second, lead);
    if |places| < MAX_LOCATIONS {
      forall x | x in second ensures !AddsAPlace(x, places) {
        assert Extends(middle, places);
      }
    }
    var r := Merged(first, second, lead);
    if |r| < MAX_LOCATIONS {
      forall x | x in first || x in second ensures x in r {
        if x !in head { assert !IsNew(x, r); }
      }
    }
  }

  lemma PlacesAdd(first: seq<Location>, second: seq<Location>, lead: nat)
    requires lead < MAX_LOCATIONS
    ensures var r := Merged(first, second, lead);
      && Lead(first, lead) <= Places(first, second, lead) <= r
      && forall j :: |Lead(first, lead)| <= j < |Places(first, second, lead)| ==> AddsAPlace(r[j], r[..j])
  {
    var head, rest := Lead(first, lead), Rest(first, lead);
    var middle := Fill(head, second, AddsAPlace);
    var places := Places(first, second, lead);
    FillShape(head, second, AddsAPlace);
    FillShape(middle, rest, AddsAPlace);
    FillShape(places, rest + second, IsNew);
    var r := Merged(first, second, lead);
    assert r == Fill(places, rest + second, IsNew);
    forall j | |head| <= j < |places| ensures AddsAPlace(r[j], r[..j]) {
      assert r[j] == places[j] && r[..j] == places[..j];
      if j < |middle| { assert places[j] == middle[j] && places[..j] == middle[..j]; }
    }
  }

  /** A composite localizes what the lead of its first member localizes, and, when it has room to spare, whatever either
      member does. */
  lemma MergeCovers(first: seq<Location>, second: seq<Location>, lead: nat, sites: seq<Site>)
    requires lead < MAX_LOCATIONS
    ensures var r := Merged(first, second, lead);
      && (Localized(sites, Lead(first, lead)) ==> Localized(sites, r))
      && (|r| < MAX_LOCATIONS && (Localized(sites, first) || Localized(sites, second)) ==> Localized(sites, r))
  {
    MergeMeaning(first, second, lead);
    var r := Merged(first, second, lead);
    CoverageGrows(sites, Lead(first, lead), r);
    if |r| < MAX_LOCATIONS {
      CoverageGrows(sites, first, r);
      CoverageGrows(sites, second, r);
    }
  }
}

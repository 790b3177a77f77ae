/**
 Scoring of a fault localizer: which returned locations are kept, what they cover, how two
 evaluations compare, and when a successor replaces its parent.
 */
module Localizer {
  import opened Wrappers
  import Orders

  const MAX_LOCATIONS: nat := 6
  const WINDOW: nat := 40
  const LONGEST_PATH: nat := 400

  datatype Location = Location(path: string, line: int)

  // One entry of what a module returned: a path and a line, or something else.
  datatype Item = Pair(location: Location) | Junk

  datatype Site = Site(path: string, first: int, last: int)

  // --- relative paths -------------------------------------------------------------------------------------

  // The pieces between slashes.
  function Split(p: string): (pieces: seq<string>)
    ensures |pieces| >= 1
  {
    if p == "" then [""]
    else if p[0] == '/' then [""] + Split(p[1..])
    else var rest := Split(p[1..]); [[p[0]] + rest[0]] + rest[1..]
  }

  predicate Meant(piece: string) { piece != "" && piece != "." }

  function Meaningful(pieces: seq<string>): seq<string>
  {
    if pieces == [] then [] else (if Meant(pieces[0]) then [pieces[0]] else []) + Meaningful(pieces[1..])
  }

  function Parts(p: string): seq<string> { Meaningful(Split(p)) }

  function Join(parts: seq<string>): string
  {
    if parts == [] then "" else if |parts| == 1 then parts[0] else parts[0] + "/" + Join(parts[1..])
  }

  predicate Absolute(p: string) { p != "" && p[0] == '/' }

  predicate WellFormed(item: Item)
  {
    item.Pair? && item.location.line >= 1 && Parts(item.location.path) != [] && !Absolute(item.location.path) &&
    ".." !in Parts(item.location.path) && |item.location.path| <= LONGEST_PATH
  }

  function Normal(location: Location): Location { location.(path := Join(Parts(location.path))) }

  // All well-formed entries, their paths normalised.
  function Usable(items: seq<Item>): seq<Location>
  {
    if items == [] then []
    else (if WellFormed(items[0]) then [Normal(items[0].location)] else []) + Usable(items[1..])
  }

  function Cleaned(items: seq<Item>): seq<Location>
  {
    var usable := Usable(items);
    if |usable| <= MAX_LOCATIONS then usable else usable[..MAX_LOCATIONS]
  }

  method CleanLocations(items: seq<Item>) returns (kept: seq<Location>)
    ensures kept == Cleaned(items)
  {
    kept := [];
    var i := 0;
    while i < |items| && |kept| < MAX_LOCATIONS
      invariant 0 <= i <= |items| && |kept| <= MAX_LOCATIONS
      invariant Usable(items) == kept + Usable(items[i..])
    {
      assert items[i..][1..] == items[i + 1..];
      UsableStep(kept, items[i..]);
      if WellFormed(items[i]) { kept := kept + [Normal(items[i].location)]; }
      i := i + 1;
    }
    assert items[|items|..] == [];
  }

  lemma UsableStep(kept: seq<Location>, items: seq<Item>)
    requires items != []
    ensures kept + Usable(items)
      == (if WellFormed(items[0]) then kept + [Normal(items[0].location)] else kept) + Usable(items[1..])
  {
    if !WellFormed(items[0]) { assert [] + Usable(items[1..]) == Usable(items[1..]); }
  }

  predicate Plain(piece: string) { '/' !in piece && Meant(piece) }

  lemma {:induction false} SplitHasNoSlash(p: string)
    ensures forall piece :: piece in Split(p) ==> '/' !in piece
  {
    if p != "" { SplitHasNoSlash(p[1..]); }
  }

  lemma {:induction false} MeaningfulIsMeant(pieces: seq<string>)
    ensures forall piece :: piece in Meaningful(pieces) <==> piece in pieces && Meant(piece)
  {
    if pieces != [] { MeaningfulIsMeant(pieces[1..]); }
  }

  lemma PartsArePlain(p: string)
    ensures forall piece :: piece in Parts(p) ==> Plain(piece)
  {
    SplitHasNoSlash(p);
    MeaningfulIsMeant(Split(p));
  }

  // One piece without a slash, followed by more.
  lemma {:induction false} SplitPiece(piece: string, rest: string)
    requires '/' !in piece
    ensures Split(piece + "/" + rest) == [piece] + Split(rest)
    ensures Split(piece) == [piece]
  {
    if piece == "" {
      assert piece + "/" + rest == "/" + rest;
      assert ("/" + rest)[1..] == rest;
    } else {
      SplitPiece(piece[1..], rest);
      assert (piece + "/" + rest)[1..] == piece[1..] + "/" + rest;
      assert [piece[0]] + piece[1..] == piece;
    }
  }

  lemma {:induction false} JoinedSplits(parts: seq<string>)
    requires parts != [] && forall piece :: piece in parts ==> '/' !in piece
    ensures Split(Join(parts)) == parts
  {
    if |parts| == 1 {
      SplitPiece(parts[0], "");
      assert parts == [parts[0]];
    } else {
      var rest := parts[1..];
      JoinedSplits(rest);
      SplitPiece(parts[0], Join(rest));
      assert Join(parts) == parts[0] + "/" + Join(rest);
      assert parts == [parts[0]] + rest;
    }
  }

  lemma {:induction false} MeaningfulKeepsPlain(pieces: seq<string>)
    requires forall piece :: piece in pieces ==> Meant(piece)
    ensures Meaningful(pieces) == pieces
  {
    if pieces != [] { MeaningfulKeepsPlain(pieces[1..]); }
  }

  /** A normalised path has the parts it was made of. */
  lemma PathRoundTrip(p: string)
    requires Parts(p) != []
    ensures Parts(Join(Parts(p))) == Parts(p) && !Absolute(Join(Parts(p)))
  {
    PartsArePlain(p);
    JoinedSplits(Parts(p));
    MeaningfulKeepsPlain(Parts(p));
    var first := Parts(p)[0];
    assert Plain(first) && Join(Parts(p))[0] == first[0];
  }

  // Splitting loses nothing: joining the pieces gives the path back.
  lemma {:induction false} SplitJoins(p: string)
    ensures Join(Split(p)) == p
  {
    if p != "" {
      SplitJoins(p[1..]);
      var rest := Split(p[1..]);
      if p[0] == '/' {
        assert Split(p)[1..] == rest;
        assert "" + "/" + p[1..] == p;
      } else {
        assert Split(p)[1..] == rest[1..];
        assert [p[0]] + p[1..] == p;
      }
    }
  }

  // Splitting at any slash splits the rest on either side.
  lemma {:induction false} SplitAdds(x: string, y: string)
    ensures Split(x + "/" + y) == Split(x) + Split(y)
    decreases |x|
  {
    if x == "" {
      SplitPiece("", y);
    } else {
      SplitAdds(x[1..], y);
      assert x == [x[0]] + x[1..];
      assert x + "/" + y == [x[0]] + (x[1..] + "/" + y);
      SplitCons(x[0], x[1..]);
      SplitCons(x[0], x[1..] + "/" + y);
      Pushed(x[0], Split(x[1..]), Split(y));
    }
  }

  // One more character in front of a path: a slash starts a piece, any other joins the first one.
  function Push(c: char, pieces: seq<string>): seq<string>
    requires pieces != []
  {
    if c == '/' then [""] + pieces else [[c] + pieces[0]] + pieces[1..]
  }

  lemma SplitCons(c: char, rest: string)
    ensures Split([c] + rest) == Push(c, Split(rest))
  {
    assert ([c] + rest)[1..] == rest && ([c] + rest)[0] == c;
  }

  lemma Pushed(c: char, a: seq<string>, b: seq<string>)
    requires a != []
    ensures Push(c, a + b) == Push(c, a) + b
  {
    assert (a + b)[1..] == a[1..] + b;
  }

  lemma {:induction false} MeaningfulAdds(a: seq<string>, b: seq<string>)
    ensures Meaningful(a + b) == Meaningful(a) + Meaningful(b)
    decreases |a|
  {
    if a == [] {
      assert a + b == b;
    } else {
      MeaningfulAdds(a[1..], b);
      assert (a + b)[1..] == a[1..] + b && (a + b)[0] == a[0];
      var first := if Meant(a[0]) then [a[0]] else [];
      assert first + (Meaningful(a[1..]) + Meaningful(b)) == (first + Meaningful(a[1..])) + Meaningful(b);
    }
  }

  // The parts of a path are the parts on either side of any slash; what has no slash is one part, or none when it is
  // empty or a dot.
  lemma PartsAdd(x: string, y: string)
    ensures Parts(x + "/" + y) == Parts(x) + Parts(y)
    ensures '/' !in x ==> Parts(x) == if x == "" || x == "." then [] else [x]
  {
    SplitAdds(x, y);
    MeaningfulAdds(Split(x), Split(y));
    if '/' !in x {
      SplitPiece(x, "");
    }
  }

  // `piece` stands in `p` between two slashes, or between a slash and an end.
  ghost predicate PieceAt(p: string, piece: string, i: nat, j: nat)
  {
    && i <= j <= |p| && p[i..j] == piece && '/' !in piece
    && (i == 0 || p[i - 1] == '/') && (j == |p| || p[j] == '/')
  }

  ghost predicate PieceOf(p: string, piece: string) { exists i: nat, j: nat :: PieceAt(p, piece, i, j) }

  lemma PieceIsSplitOff(p: string, piece: string, i: nat, j: nat)
    requires PieceAt(p, piece, i, j)
    ensures piece in Split(p)
  {
    LeadsItsTail(p, piece, i, j);
    if i > 0 {
      assert p == p[..i - 1] + "/" + p[i..];
      SplitAdds(p[..i - 1], p[i..]);
    }
  }

  lemma LeadsItsTail(p: string, piece: string, i: nat, j: nat)
    requires PieceAt(p, piece, i, j)
    ensures piece in Split(p[i..])
  {
    if j == |p| {
      assert p[i..] == piece;
      SplitPiece(piece, "");
    } else {
      assert p[i..] == piece + "/" + p[j + 1..];
      SplitPiece(piece, p[j + 1..]);
    }
  }

  lemma FirstSlash(p: string) returns (k: nat)
    ensures k <= |p| && '/' !in p[..k] && (k < |p| ==> p[k] == '/')
  {
    k := 0;
    while k < |p| && p[k] != '/'
      invariant k <= |p| && '/' !in p[..k]
    {
      k := k + 1;
    }
  }

  lemma {:induction false} SplitOffIsPiece(p: string, piece: string)
    requires piece in Split(p)
    ensures PieceOf(p, piece)
    decreases |p|
  {
    var k := FirstSlash(p);
    var head := p[..k];
    if k == |p| {
      assert head == p;
      SplitPiece(p, "");
      assert PieceAt(p, piece, 0, |p|);
    } else {
      var tail := p[k + 1..];
      assert p == head + "/" + tail;
      SplitPiece(head, tail);
      if piece == head {
        assert PieceAt(p, piece, 0, k);
      } else {
        SplitOffIsPiece(tail, piece);
        var i: nat, j: nat :| PieceAt(tail, piece, i, j);
        assert p[k + 1 + i..k + 1 + j] == tail[i..j];
        assert PieceAt(p, piece, k + 1 + i, k + 1 + j);
      }
    }
  }

  /** What is kept of an answer: a pair whose line is positive and whose path is relative, not too long, names
      something, and climbs nowhere. */
  lemma WellFormedMeans(item: Item)
    ensures WellFormed(item) <==>
            && item.Pair? && item.location.line >= 1
            && |item.location.path| <= 400 && (item.location.path == "" || item.location.path[0] != '/')
            && (exists piece :: PieceOf(item.location.path, piece) && piece != "" && piece != ".")
            && !PieceOf(item.location.path, "..")
  {
    if item.Pair? {
      var p := item.location.path;
      MeaningfulIsMeant(Split(p));
      forall piece
        ensures piece in Split(p) <==> PieceOf(p, piece)
      {
        if piece in Split(p) {
          SplitOffIsPiece(p, piece);
        }
        if i: nat, j: nat :| PieceAt(p, piece, i, j) {
          PieceIsSplitOff(p, piece, i, j);
        }
      }
      if Parts(p) != [] {
        assert Parts(p)[0] in Parts(p);
      }
    }
  }

  // The characters of the pieces, and a slash between any two.
  function Width(pieces: seq<string>): nat
  {
    if pieces == [] then 0 else |pieces[0]| + 1 + Width(pieces[1..])
  }

  lemma {:induction false} SplitWidth(p: string)
    ensures Width(Split(p)) == |p| + 1
  {
    if p != "" {
      SplitWidth(p[1..]);
      var rest := Split(p[1..]);
      assert p[0] != '/' ==> Split(p)[1..] == rest[1..];
      assert p[0] == '/' ==> Split(p)[1..] == rest;
    }
  }

  lemma {:induction false} MeaningfulWidth(pieces: seq<string>)
    ensures Width(Meaningful(pieces)) <= Width(pieces)
  {
    if pieces != [] {
      MeaningfulWidth(pieces[1..]);
      assert ([pieces[0]] + Meaningful(pieces[1..]))[1..] == Meaningful(pieces[1..]);
      assert [] + Meaningful(pieces[1..]) == Meaningful(pieces[1..]);
    }
  }

  lemma {:induction false} JoinWidth(parts: seq<string>)
    requires parts != []
    ensures |Join(parts)| + 1 == Width(parts)
  {
    if |parts| > 1 { JoinWidth(parts[1..]); }
  }

  lemma NormalIsWellFormed(item: Item)
    requires WellFormed(item)
    ensures WellFormed(Pair(Normal(item.location))) && Normal(Normal(item.location)) == Normal(item.location)
  {
    var p := item.location.path;
    PathRoundTrip(p);
    SplitWidth(p);
    MeaningfulWidth(Split(p));
    JoinWidth(Parts(p));
  }

  function Pairs(locations: seq<Location>): seq<Item>
  {
    seq(|locations|, i requires 0 <= i < |locations| => Pair(locations[i]))
  }

  predicate Clean(locations: seq<Location>)
  {
    forall i :: 0 <= i < |locations| ==> WellFormed(Pair(locations[i])) && Normal(locations[i]) == locations[i]
  }

  lemma {:induction false} UsableIsClean(items: seq<Item>)
    ensures Clean(Usable(items))
  {
    if items != [] {
      UsableIsClean(items[1..]);
      if WellFormed(items[0]) { NormalIsWellFormed(items[0]); }
    }
  }

  lemma {:induction false} CleanIsUsable(locations: seq<Location>)
    requires Clean(locations)
    ensures Usable(Pairs(locations)) == locations
  {
    if locations != [] {
      CleanIsUsable(locations[1..]);
      assert Pairs(locations)[1..] == Pairs(locations[1..]);
      assert Pairs(locations)[0] == Pair(locations[0]) && [locations[0]] + locations[1..] == locations;
    }
  }

  /** Cleaning keeps at most six locations, all well formed, and cleaning them again changes nothing. */
  lemma CleaningIsIdempotent(items: seq<Item>)
    ensures |Cleaned(items)| <= MAX_LOCATIONS && Clean(Cleaned(items))
    ensures Cleaned(Pairs(Cleaned(items))) == Cleaned(items)
  {
    UsableIsClean(items);
    CleanIsUsable(Cleaned(items));
  }

  // --- scoring ----------------------------------------------------------------------------------------------

  predicate CoveredBy(site: Site, location: Location)
  {
    location.path == site.path && location.line - WINDOW <= site.first && site.last <= location.line + WINDOW
  }

  predicate Covers(site: Site, locations: seq<Location>)
  {
    exists i :: 0 <= i < |locations| && CoveredBy(site, locations[i])
  }

  predicate Localized(sites: seq<Site>, locations: seq<Location>)
  {
    forall i :: 0 <= i < |sites| ==> Covers(sites[i], locations)
  }

  predicate AnySite(sites: seq<Site>, locations: seq<Location>)
  {
    exists i :: 0 <= i < |sites| && Covers(sites[i], locations)
  }

  predicate AllFiles(sites: seq<Site>, locations: seq<Location>)
  {
    forall i :: 0 <= i < |sites| ==> exists j :: 0 <= j < |locations| && locations[j].path == sites[i].path
  }

  // More locations never cover less, and a localized case has every file and some site right.
  lemma CoverageGrows(sites: seq<Site>, fewer: seq<Location>, more: seq<Location>)
    requires forall l :: l in fewer ==> l in more
    ensures Localized(sites, fewer) ==> Localized(sites, more)
    ensures AnySite(sites, fewer) ==> AnySite(sites, more)
    ensures Localized(sites, fewer) ==> AllFiles(sites, fewer) && (sites != [] ==> AnySite(sites, fewer))
  {
    forall i | 0 <= i < |sites| && Covers(sites[i], fewer)
      ensures Covers(sites[i], more) && exists j :: 0 <= j < |fewer| && fewer[j].path == sites[i].path
    {
      var j :| 0 <= j < |fewer| && CoveredBy(sites[i], fewer[j]);
      assert fewer[j] in more;
    }
    if Localized(sites, fewer) && sites != [] { assert Covers(sites[0], fewer); }
  }

  datatype Row = Row(locations: seq<Location>, error: Option<string>, localized: bool, anySite: bool, allFiles: bool)

  // What a module answered on one case; an empty error stands for none.
  datatype Output = Output(items: seq<Item>, error: string)

  const LONGEST_ERROR: nat := 120

  datatype Error = NoSites | UnknownCase | DifferentCases | UnknownMember

  type Truth = map<string, seq<Site>>

  type Outputs = map<string, Output>

  datatype Evaluation = Evaluation(rows: map<string, Row>, caseCount: nat, localized: nat, anySite: nat,
    allFiles: nat, errors: nat)

  function ErrorOf(text: string): Option<string>
  {
    if text == "" then None else Some(if |text| <= LONGEST_ERROR then text else text[..LONGEST_ERROR])
  }

  function Score(sites: seq<Site>, locations: seq<Location>, error: string): Row
  {
    Row(locations, ErrorOf(error), Localized(sites, locations), AnySite(sites, locations), AllFiles(sites, locations))
  }

  function Answer(outputs: Outputs, c: string): Output { if c in outputs then outputs[c] else Output([], "") }

  function RowOf(outputs: Outputs, truth: Truth, c: string): Row
    requires c in truth
  {
    Score(truth[c], Cleaned(Answer(outputs, c).items), Answer(outputs, c).error)
  }

  // The first case that cannot be scored, which stops the evaluation.
  function Unscorable(truth: Truth, cases: seq<string>): Option<Error>
  {
    if cases == [] then None
    else if cases[0] !in truth then Some(UnknownCase)
    else if truth[cases[0]] == [] then Some(NoSites)
    else Unscorable(truth, cases[1..])
  }

  lemma {:induction false} ScorableCases(truth: Truth, cases: seq<string>)
    ensures Unscorable(truth, cases).None? <==> forall c :: c in cases ==> c in truth && truth[c] != []
  {
    if cases != [] { ScorableCases(truth, cases[1..]); }
  }

  function LocalizedCases(rows: map<string, Row>): set<string> { set c | c in rows && rows[c].localized }

  function Tally(rows: map<string, Row>): Evaluation
  {
    Evaluation(rows, |rows|, |LocalizedCases(rows)|, |set c | c in rows && rows[c].anySite|,
               |set c | c in rows && rows[c].allFiles|, |set c | c in rows && rows[c].error.Some?|)
  }

  // The rows depend on which cases are asked for, not on their order or on repetitions.
  function RowsOf(outputs: Outputs, truth: Truth, cases: set<string>): map<string, Row>
    requires forall c :: c in cases ==> c in truth
  {
    map c | c in cases :: RowOf(outputs, truth, c)
  }

  function Problem(truth: Truth, c: string): Option<Error>
  {
    if c !in truth then Some(UnknownCase) else if truth[c] == [] then Some(NoSites) else None
  }

  lemma RowsGrow(outputs: Outputs, truth: Truth, cases: seq<string>, i: nat)
    requires i < |cases| && (forall c :: c in Orders.Elements(cases[..i]) ==> c in truth) && cases[i] in truth
    ensures Orders.Elements(cases[..i + 1]) == Orders.Elements(cases[..i]) + {cases[i]}
    ensures RowsOf(outputs, truth, Orders.Elements(cases[..i + 1]))
      == RowsOf(outputs, truth, Orders.Elements(cases[..i]))[cases[i] := RowOf(outputs, truth, cases[i])]
  {
    assert cases[..i + 1] == cases[..i] + [cases[i]];
    assert Orders.Elements(cases[..i + 1]) == Orders.Elements(cases[..i]) + {cases[i]};
  }

  lemma UnscorableStep(truth: Truth, cases: seq<string>, i: nat)
    requires i < |cases|
    ensures Unscorable(truth, cases[i..])
      == if Problem(truth, cases[i]).Some? then Problem(truth, cases[i]) else Unscorable(truth, cases[i + 1..])
  {
    assert cases[i..][1..] == cases[i + 1..];
  }

  // The rows of the cases up to `i`, or the problem that stops the evaluation there.
  ghost predicate Underway(outputs: Outputs, truth: Truth, cases: seq<string>, i: nat, rows: map<string, Row>)
    requires i <= |cases|
  {
    (forall c :: c in Orders.Elements(cases[..i]) ==> c in truth) &&
    rows == RowsOf(outputs, truth, Orders.Elements(cases[..i])) &&
    Unscorable(truth, cases) == Unscorable(truth, cases[i..])
  }

  lemma UnderwayStarts(outputs: Outputs, truth: Truth, cases: seq<string>)
    ensures Underway(outputs, truth, cases, 0, map[])
  {
    assert cases[0..] == cases && Orders.Elements(cases[..0]) == {};
  }

  lemma UnderwayStep(outputs: Outputs, truth: Truth, cases: seq<string>, i: nat, rows: map<string, Row>)
    requires i < |cases| && Underway(outputs, truth, cases, i, rows)
    ensures Problem(truth, cases[i]).Some? ==> Unscorable(truth, cases) == Problem(truth, cases[i])
    ensures Problem(truth, cases[i]).None? ==>
      cases[i] in truth && Underway(outputs, truth, cases, i + 1, rows[cases[i] := RowOf(outputs, truth, cases[i])])
  {
    UnscorableStep(truth, cases, i);
    if Problem(truth, cases[i]).None? { RowsGrow(outputs, truth, cases, i); }
  }

  lemma UnderwayEnds(outputs: Outputs, truth: Truth, cases: seq<string>, rows: map<string, Row>)
    requires Underway(outputs, truth, cases, |cases|, rows)
    ensures Unscorable(truth, cases).None? && forall c :: c in Orders.Elements(cases) ==> c in truth
    ensures rows == RowsOf(outputs, truth, Orders.Elements(cases))
  {
    assert cases[..|cases|] == cases && cases[|cases|..] == [];
  }

  // The location's window of forty lines either way holds the whole site.
  ghost predicate Hits(l: Location, site: Site)
  {
    l.path == site.path && l.line - 40 <= site.first && site.last <= l.line + 40
  }

  ghost predicate HitBy(site: Site, locations: seq<Location>) { exists l :: l in locations && Hits(l, site) }

  ghost predicate FileNamed(path: string, locations: seq<Location>)
  {
    exists l :: l in locations && l.path == path
  }

  // What a row says of the sites of its case.
  ghost predicate RowMeans(row: Row, sites: seq<Site>, answer: Output)
  {
    && row.locations == Cleaned(answer.items)
    && (row.localized <==> forall site :: site in sites ==> HitBy(site, row.locations))
    && (row.anySite <==> exists site :: site in sites && HitBy(site, row.locations))
    && (row.allFiles <==> forall site :: site in sites ==> FileNamed(site.path, row.locations))
    && (row.error.None? <==> answer.error == "")
    && (row.error.Some? ==> row.error.value <= answer.error && |row.error.value| <= 120)
    && (row.error.Some? && |row.error.value| < 120 ==> row.error.value == answer.error)
  }

  // An evaluation has one row for each different case, a case without an answer counting as an empty one, and its
  // counts are those of its rows.
  ghost predicate Evaluated(e: Evaluation, outputs: Outputs, truth: Truth, cases: seq<string>)
  {
    && (forall c :: c in e.rows <==> c in cases)
    && (forall c :: c in cases ==>
          c in truth && RowMeans(e.rows[c], truth[c], if c in outputs then outputs[c] else Output([], "")))
    && e.caseCount == |set c | c in cases| && e.localized == |set c | c in cases && e.rows[c].localized|
    && e.anySite == |set c | c in cases && e.rows[c].anySite|
    && e.allFiles == |set c | c in cases && e.rows[c].allFiles|
    && e.errors == |set c | c in cases && e.rows[c].error.Some?|
  }

  // What stops an evaluation: the first case that is unknown or has no sites.
  ghost predicate Stops(error: Error, truth: Truth, cases: seq<string>)
  {
    exists i :: 0 <= i < |cases| &&
      (if cases[i] !in truth then error == UnknownCase else truth[cases[i]] == [] && error == NoSites) &&
      forall j :: 0 <= j < i ==> cases[j] in truth && truth[cases[j]] != []
  }

  lemma SiteMeans(site: Site, locations: seq<Location>)
    ensures Covers(site, locations) <==> HitBy(site, locations)
    ensures (exists j :: 0 <= j < |locations| && locations[j].path == site.path) <==> FileNamed(site.path, locations)
  {
    if Covers(site, locations) {
      var i :| 0 <= i < |locations| && CoveredBy(site, locations[i]);
      assert locations[i] in locations && Hits(locations[i], site);
    } else {
      forall l | l in locations
        ensures !Hits(l, site)
      {
        var i :| 0 <= i < |locations| && locations[i] == l;
        assert !CoveredBy(site, locations[i]);
      }
    }
    forall j | 0 <= j < |locations|
      ensures locations[j] in locations
    {
    }
  }

  lemma ScoreMeans(sites: seq<Site>, locations: seq<Location>)
    ensures Localized(sites, locations) <==> forall site :: site in sites ==> HitBy(site, locations)
    ensures AnySite(sites, locations) <==> exists site :: site in sites && HitBy(site, locations)
    ensures AllFiles(sites, locations) <==> forall site :: site in sites ==> FileNamed(site.path, locations)
  {
    forall i | 0 <= i < |sites|
      ensures sites[i] in sites
      ensures Covers(sites[i], locations) <==> HitBy(sites[i], locations)
      ensures (exists j :: 0 <= j < |locations| && locations[j].path == sites[i].path) <==>
              FileNamed(sites[i].path, locations)
    {
      SiteMeans(sites[i], locations);
    }
    forall site | site in sites
      ensures exists i :: 0 <= i < |sites| && sites[i] == site
    {
    }
  }

  lemma RowIs(outputs: Outputs, truth: Truth, c: string)
    requires c in truth
    ensures RowMeans(RowOf(outputs, truth, c), truth[c], if c in outputs then outputs[c] else Output([], ""))
  {
    var locations := Cleaned(Answer(outputs, c).items);
    ScoreMeans(truth[c], locations);
  }

  lemma EvaluationMeans(outputs: Outputs, truth: Truth, cases: seq<string>)
    requires forall c :: c in Orders.Elements(cases) ==> c in truth
    ensures Evaluated(Tally(RowsOf(outputs, truth, Orders.Elements(cases))), outputs, truth, cases)
  {
    var e := Tally(RowsOf(outputs, truth, Orders.Elements(cases)));
    forall c | c in cases
      ensures c in truth && RowMeans(e.rows[c], truth[c], if c in outputs then outputs[c] else Output([], ""))
    {
      RowIs(outputs, truth, c);
    }
    assert e.rows.Keys == set c | c in cases;
    SameCounts(e, cases);
  }

  lemma SameCounts(e: Evaluation, cases: seq<string>)
    requires e == Tally(e.rows) && forall c :: c in e.rows <==> c in cases
    ensures e.localized == |set c | c in cases && e.rows[c].localized|
    ensures e.anySite == |set c | c in cases && e.rows[c].anySite|
    ensures e.allFiles == |set c | c in cases && e.rows[c].allFiles|
    ensures e.errors == |set c | c in cases && e.rows[c].error.Some?|
  {
    assert LocalizedCases(e.rows) == set c | c in cases && e.rows[c].localized;
    assert (set c | c in e.rows && e.rows[c].anySite) == set c | c in cases && e.rows[c].anySite;
    assert (set c | c in e.rows && e.rows[c].allFiles) == set c | c in cases && e.rows[c].allFiles;
    assert (set c | c in e.rows && e.rows[c].error.Some?) == set c | c in cases && e.rows[c].error.Some?;
  }

  lemma {:induction false} UnscorableStops(truth: Truth, cases: seq<string>)
    requires Unscorable(truth, cases).Some?
    ensures Stops(Unscorable(truth, cases).value, truth, cases)
    decreases |cases|
  {
    if cases[0] in truth && truth[cases[0]] != [] {
      UnscorableStops(truth, cases[1..]);
      var error := Unscorable(truth, cases).value;
      var i :| 0 <= i < |cases[1..]| &&
        (if cases[1..][i] !in truth then error == UnknownCase else truth[cases[1..][i]] == [] && error == NoSites) &&
        forall j :: 0 <= j < i ==> cases[1..][j] in truth && truth[cases[1..][j]] != [];
      assert cases[i + 1] == cases[1..][i];
      forall j | 0 <= j < i + 1
        ensures cases[j] in truth && truth[cases[j]] != []
      {
        assert j > 0 ==> cases[j] == cases[1..][j - 1];
      }
    }
  }

  method Evaluate(outputs: Outputs, truth: Truth, cases: seq<string>) returns (r: Result<Evaluation, Error>)
    ensures Unscorable(truth, cases).Some? ==> r == Err(Unscorable(truth, cases).value)
    ensures Unscorable(truth, cases).None? ==>
      (forall c :: c in Orders.Elements(cases) ==> c in truth) &&
        r == Ok(Tally(RowsOf(outputs, truth, Orders.Elements(cases))))
    ensures r.Ok? ==> Evaluated(r.value, outputs, truth, cases)
    ensures r.Err? ==> Stops(r.error, truth, cases)
  {
    var rows: map<string, Row> := map[];
    UnderwayStarts(outputs, truth, cases);
    for i := 0 to |cases|
      invariant Underway(outputs, truth, cases, i, rows)
    {
      UnderwayStep(outputs, truth, cases, i, rows);
      var problem := Problem(truth, cases[i]);
      if problem.Some? {
        UnscorableStops(truth, cases);
        return Err(problem.value);
      }
      var answer := Answer(outputs, cases[i]);
      var locations := CleanLocations(answer.items);
      rows := rows[cases[i] := Score(truth[cases[i]], locations, answer.error)];
    }
    UnderwayEnds(outputs, truth, cases, rows);
    EvaluationMeans(outputs, truth, cases);
    r := Ok(Tally(rows));
  }

  // --- comparing and promoting -------------------------------------------------------------------------------

  datatype Comparison = Comparison(parent: nat, child: nat, gained: set<string>, lost: set<string>)

  function Compare(child: Evaluation, parent: Evaluation): Result<Comparison, Error>
  {
    if child.rows.Keys != parent.rows.Keys then Err(DifferentCases)
    else
      Ok(Comparison(parent.localized, child.localized,
                    set c | c in child.rows && child.rows[c].localized && !parent.rows[c].localized,
                    set c | c in child.rows && !child.rows[c].localized && parent.rows[c].localized))
  }

  lemma SizeOfParts<T>(whole: set<T>, part: set<T>)
    ensures |whole| == |whole * part| + |whole - part|
  {
    assert whole == (whole * part) + (whole - part);
  }

  // Two evaluations compare exactly when they are of the same cases; gained are the cases only the child localizes,
  // lost the ones only the parent does.
  lemma CompareMeans(child: Evaluation, parent: Evaluation)
    ensures Compare(child, parent).Ok? <==> forall c :: c in child.rows <==> c in parent.rows
    ensures Compare(child, parent).Ok? ==>
              var r := Compare(child, parent).value;
              && r.child == child.localized && r.parent == parent.localized
              && (forall c :: c in r.gained <==>
                   c in child.rows && child.rows[c].localized && !parent.rows[c].localized)
              && (forall c :: c in r.lost <==>
                   c in child.rows && !child.rows[c].localized && parent.rows[c].localized)
  {
    if forall c :: c in child.rows <==> c in parent.rows {
      assert child.rows.Keys == parent.rows.Keys;
    }
  }

  /** The net gain of a comparison is exactly the difference of the two scores. */
  lemma NetGain(child: Evaluation, parent: Evaluation)
    requires child == Tally(child.rows) && parent == Tally(parent.rows) && Compare(child, parent).Ok?
    ensures var c := Compare(child, parent).value;
      child.localized - parent.localized == |c.gained| - |c.lost|
  {
    var c := Compare(child, parent).value;
    var now, was := LocalizedCases(child.rows), LocalizedCases(parent.rows);
    assert c.gained == now - was;
    assert c.lost == was - now;
    SizeOfParts(now, was);
    SizeOfParts(was, now);
    assert now * was == was * now;
  }

  // `significant(lost, gained)` is the one-sided sign test below the level.
  predicate Promotes(c: Comparison, margin: int, significant: (nat, nat) -> bool)
  {
    |c.gained| - |c.lost| >= margin && significant(|c.lost|, |c.gained|)
  }
}

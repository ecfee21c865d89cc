/** Slash-separated paths: lexical cleaning, joining and splitting into components. */
module Paths {
  import opened Basics
  import opened Text

  const SLASH: char := '/'

  function JoinParts(parts: seq<string>): string {
    Join(parts, SLASH)
  }

  predicate Rooted(path: string) {
    path != "" && path[0] == SLASH
  }

  /** One step of lexical cleaning: drop empty and `.` components, let `..` take the component before it. */
  function CleanStep(rooted: bool, parts: seq<string>, piece: string): seq<string> {
    if piece == "" || piece == "." then parts
    else if piece != ".." then parts + [piece]
    else if parts != [] && parts[|parts| - 1] != ".." then parts[..|parts| - 1]
    else if rooted then parts
    else parts + [piece]
  }

  function CleanAll(rooted: bool, pieces: seq<string>): seq<string> {
    if pieces == [] then []
    else CleanStep(rooted, CleanAll(rooted, pieces[..|pieces| - 1]), pieces[|pieces| - 1])
  }

  /** The components that are left of a path after cleaning. */
  function Components(path: string): seq<string> {
    CleanAll(Rooted(path), Split(path, SLASH))
  }

  /** The cleaned path, as the library function of the source language returns it. */
  function Clean(path: string): string {
    var parts := Components(path);
    if Rooted(path) then "/" + JoinParts(parts) else if parts == [] then "." else JoinParts(parts)
  }

  /** Joining a non-empty prefix with a name. */
  function JoinClean(prefix: string, name: string): string {
    Clean(prefix + "/" + name)
  }

  /** The components of a path, as the code splits them. */
  method SplitPath(path: string) returns (parts: seq<string>)
    ensures parts == Components(path)
  {
    var clean := Clean(path);
    CleanIsSplit(path);
    parts := [];
    if clean == "." || clean == "" {
      return;
    }
    parts := SplitSlashes(clean);
  }

  /** The loop over the characters: `start` is where the current piece begins. */
  method SplitSlashes(path: string) returns (parts: seq<string>)
    ensures parts == Kept(Split(path, SLASH))
  {
    hide *;
    parts := [];
    var start := 0;
    var i := 0;
    ghost var rest := Kept(Split(path, SLASH));
    ghost var piece := "";
    assert path[0..] == path && parts + rest == rest;
    while i <= |path|
      invariant 0 <= start <= i <= |path| + 1
      invariant parts + rest == Kept(Split(path, SLASH))
      invariant i <= |path| ==> piece == path[start..i] && SLASH !in piece && rest == Kept(Split(path[start..], SLASH))
      invariant i == |path| + 1 ==> rest == []
    {
      if i == |path| || path[i] == SLASH {
        var part := path[start..i];
        PieceEnds(path, start, i);
        rest := if i < |path| then Kept(Split(path[i + 1..], SLASH)) else [];
        ConcatAssociative(parts, KeptPiece(part), rest);
        parts := AddPart(parts, part, start, i);
        start := i + 1;
        piece := "";
      } else {
        piece := piece + [path[i]];
      }
      i := i + 1;
    }
    assert parts + [] == parts;
  }

  method AddPart(parts: seq<string>, part: string, start: nat, i: nat) returns (more: seq<string>)
    requires |part| == i - start
    ensures more == parts + KeptPiece(part)
  {
    more := parts;
    if i > start {
      if part != "." {
        more := parts + [part];
      }
    }
  }

  function KeptPiece(piece: string): seq<string> {
    if piece == "" || piece == "." then [] else [piece]
  }

  lemma PieceEnds(clean: string, start: nat, i: nat)
    requires start <= i <= |clean| && SLASH !in clean[start..i] && (i < |clean| ==> clean[i] == SLASH)
    ensures Kept(Split(clean[start..], SLASH))
            == KeptPiece(clean[start..i]) + if i < |clean| then Kept(Split(clean[i + 1..], SLASH)) else []
  {
    var tail := clean[start..];
    assert tail[..i - start] == clean[start..i];
    SplitFirst(tail, SLASH, i - start);
    var later := if i < |clean| then Split(tail[i - start + 1..], SLASH) else [];
    KeptFirst(clean[start..i], later);
    assert i < |clean| ==> tail[i - start + 1..] == clean[i + 1..];
    KeptNone();
    hide *;
  }

  lemma KeptNone()
    ensures Kept([]) == []
  {
  }

  /** The pieces that the splitting loop keeps. */
  function Kept(pieces: seq<string>): seq<string> {
    if pieces == [] then []
    else KeptPiece(pieces[0]) + Kept(pieces[1..])
  }

  lemma KeptFirst(piece: string, rest: seq<string>)
    ensures Kept([piece] + rest) == KeptPiece(piece) + Kept(rest)
  {
    assert ([piece] + rest)[1..] == rest;
  }

  // ---- Components that survive cleaning ----

  /** A name that can stand as an entry of a directory. */
  predicate GoodName(name: string) {
    name != "" && SLASH !in name && name != "." && name != ".."
  }

  /** Components as cleaning leaves them: no empty, dotted or slashed ones, and `..` only in front. */
  ghost predicate Clear(parts: seq<string>) {
    && (forall p :: p in parts ==> p != "" && p != "." && SLASH !in p)
    && (forall i, j :: 0 <= i < j < |parts| && parts[j] == ".." ==> parts[i] == "..")
  }

  lemma {:induction false} CleanAllIsClear(rooted: bool, pieces: seq<string>)
    requires forall p :: p in pieces ==> SLASH !in p
    ensures Clear(CleanAll(rooted, pieces))
  {
    if pieces != [] {
      var init, last := pieces[..|pieces| - 1], pieces[|pieces| - 1];
      CleanAllIsClear(rooted, init);
      assert last in pieces;
      StepIsClear(rooted, CleanAll(rooted, init), last);
    }
  }

  lemma StepIsClear(rooted: bool, parts: seq<string>, piece: string)
    requires Clear(parts) && SLASH !in piece
    ensures Clear(CleanStep(rooted, parts, piece))
  {
    if piece == ".." && (parts == [] || parts[|parts| - 1] == "..") {
      forall i | 0 <= i < |parts| ensures parts[i] == ".." {}
    }
  }

  lemma {:induction false} ClearIsClean(parts: seq<string>)
    requires Clear(parts)
    ensures CleanAll(false, parts) == parts
  {
    if parts != [] {
      var init, last := parts[..|parts| - 1], parts[|parts| - 1];
      assert parts == init + [last];
      InitIsClear(parts);
      ClearIsClean(init);
      hide Clear;
    }
  }

  lemma InitIsClear(parts: seq<string>)
    requires Clear(parts) && parts != []
    ensures var init, last := parts[..|parts| - 1], parts[|parts| - 1];
            Clear(init) && CleanStep(false, init, last) == init + [last]
  {
    var init, last := parts[..|parts| - 1], parts[|parts| - 1];
    assert last in parts;
    forall p | p in init ensures p in parts {}
    forall i, k | 0 <= i < k < |init| && init[k] == ".." ensures init[i] == ".." {
      assert parts[k] == ".." && parts[i] == init[i];
    }
    assert init != [] && last == ".." ==> init[|init| - 1] == parts[|init| - 1] == "..";
  }

  lemma TailIsClear(parts: seq<string>)
    requires Clear(parts) && parts != []
    ensures Clear(parts[1..]) && KeptPiece(parts[0]) == [parts[0]]
  {
    var rest := parts[1..];
    assert parts[0] in parts;
    forall p | p in rest ensures p in parts {}
    forall i, k | 0 <= i < k < |rest| && rest[k] == ".." ensures rest[i] == ".." {
      assert parts[k + 1] == ".." && parts[i + 1] == rest[i];
    }
  }

  lemma {:induction false} ClearIsKept(parts: seq<string>)
    requires Clear(parts)
    ensures Kept(parts) == parts
  {
    if parts != [] {
      TailIsClear(parts);
      ClearIsKept(parts[1..]);
      hide Clear;
    }
  }

  lemma ComponentsAreClear(path: string)
    ensures Clear(Components(path))
  {
    CleanAllIsClear(Rooted(path), Split(path, SLASH));
  }

  lemma SplitSlash()
    ensures Kept(Split("/", SLASH)) == []
  {
    SplitFirst("/", SLASH, 0);
    SplitFirst("", SLASH, 0);
    assert "/"[..0] == "" && "/"[1..] == "" && ""[..0] == "";
    KeptNone();
    KeptFirst("", []);
    KeptFirst("", [""]);
    assert [""] + [] == [""];
    hide Kept, Split;
  }

  lemma SplitDot()
    ensures Kept(Split(".", SLASH)) == []
  {
    SplitFirst(".", SLASH, 1);
    assert "."[..1] == ".";
    KeptNone();
    KeptFirst(".", []);
    hide Kept, Split;
  }

  lemma SplitRooted(parts: seq<string>)
    requires Clear(parts) && parts != [] && Split(JoinParts(parts), SLASH) == parts
    ensures Kept(Split("/" + JoinParts(parts), SLASH)) == parts
  {
    var s := "/" + JoinParts(parts);
    SplitFirst(s, SLASH, 0);
    assert s[1..] == JoinParts(parts) && s[..0] == "";
    KeptFirst("", parts);
    ClearIsKept(parts);
    hide Kept, Split;
  }

  /** Splitting a cleaned path at slashes and keeping what the code keeps gives its components. */
  lemma CleanIsSplit(path: string)
    ensures Kept(Split(Clean(path), SLASH)) == Components(path)
    ensures Clean(path) == "." || Clean(path) == "" ==> Components(path) == []
  {
    var parts := Components(path);
    ComponentsAreClear(path);
    ClearIsKept(parts);
    if parts == [] {
      if Rooted(path) {
        SplitSlash();
      } else {
        SplitDot();
      }
    } else {
      SplitJoin(parts, SLASH);
      if Rooted(path) {
        SplitRooted(parts);
      }
      JoinNotDot(parts);
    }
  }

  lemma JoinNotDot(parts: seq<string>)
    requires Clear(parts) && parts != []
    ensures JoinParts(parts) != "" && JoinParts(parts) != "." && JoinParts(parts)[0] != SLASH
  {
    assert parts[0] in parts;
    if |parts| > 1 {
      assert |JoinParts(parts)| >= 2;
    }
  }

  /** Splitting inverts joining exactly for the component lists that cleaning can leave. */
  lemma SplitInvertsJoinIff(parts: seq<string>)
    ensures Components(JoinParts(parts)) == parts <==> Clear(parts)
  {
    ComponentsAreClear(JoinParts(parts));
    if Clear(parts) {
      if parts == [] {
        SplitFirst("", SLASH, 0);
        assert [""] + [] == [""] && [""][..0] == [];
      } else {
        SplitJoin(parts, SLASH);
        JoinNotDot(parts);
        ClearIsClean(parts);
      }
    }
  }

  /** Joining a clear prefix and a good name adds one component. */
  lemma JoinCleanAdds(parts: seq<string>, name: string)
    requires Clear(parts) && parts != [] && GoodName(name)
    ensures Clear(parts + [name])
    ensures JoinClean(JoinParts(parts), name) == JoinParts(parts + [name])
  {
    var all := parts + [name];
    forall p | p in all ensures p != "" && p != "." && SLASH !in p {}
    JoinSnoc(parts, name, SLASH);
    SplitInvertsJoinIff(all);
    JoinNotDot(all);
  }

  // ---- Joining names, whatever the prefix ----

  lemma {:induction false} RootedHasNoDots(pieces: seq<string>)
    ensures ".." !in CleanAll(true, pieces)
  {
    if pieces != [] {
      RootedHasNoDots(pieces[..|pieces| - 1]);
    }
  }

  lemma {:induction false} CleanRooted(parts: seq<string>)
    requires Clear(parts) && ".." !in parts
    ensures CleanAll(true, [""] + parts) == parts
  {
    var all := [""] + parts;
    if parts == [] {
      assert all == [""] && [""][..0] == [];
    } else {
      var init, last := parts[..|parts| - 1], parts[|parts| - 1];
      assert all[..|all| - 1] == [""] + init && parts == init + [last];
      InitIsClear(parts);
      CleanRooted(init);
      assert last in parts;
      hide Clear;
    }
  }

  /** Cleaning a cleaned path changes nothing. */
  lemma CleanTwice(path: string)
    ensures Components(Clean(path)) == Components(path)
  {
    var parts := Components(path);
    ComponentsAreClear(path);
    if Rooted(path) {
      RootedHasNoDots(Split(path, SLASH));
      CleanRooted(parts);
      RootedComponents(parts);
    } else if parts == [] {
      SplitFirst(".", SLASH, 1);
      assert "."[..1] == "." && ["."] + [] == ["."] && ["."][..0] == [];
      hide Split;
    } else {
      SplitInvertsJoinIff(parts);
    }
  }

  lemma RootedComponents(parts: seq<string>)
    requires Clear(parts) && CleanAll(true, [""] + parts) == parts
    ensures Components("/" + JoinParts(parts)) == parts
  {
    var s := "/" + JoinParts(parts);
    SplitFirst(s, SLASH, 0);
    assert s[1..] == JoinParts(parts) && s[..0] == "";
    if parts == [] {
      SplitFirst("", SLASH, 0);
      assert ""[..0] == "" && [""] + [] == [""];
      assert ["", ""][..1] == [""] && [""][..0] == [];
      assert [""] + [""] == ["", ""];
      hide Split;
    } else {
      SplitJoin(parts, SLASH);
    }
  }

  /** Joining a good name to any prefix adds one component. */
  lemma JoinAddsComponent(prefix: string, name: string)
    requires GoodName(name)
    ensures Components(JoinClean(prefix, name)) == Components(prefix) + [name]
  {
    var path, pieces := prefix + "/" + name, Split(prefix, SLASH);
    SplitSnoc(prefix, name);
    CleanTwice(path);
    assert (pieces + [name])[..|pieces|] == pieces;
    assert CleanAll(Rooted(path), pieces + [name]) == CleanAll(Rooted(path), pieces) + [name];
    if prefix == "" {
      SplitFirst("", SLASH, 0);
      assert ""[..0] == "" && [""] + [] == [""] && [""][..0] == [];
      assert pieces == [""] && CleanAll(true, [""]) == [] == CleanAll(false, [""]);
    } else {
      assert path[0] == prefix[0];
    }
    hide Split, CleanAll, Clean;
  }

  lemma SplitSnoc(prefix: string, name: string)
    requires SLASH !in name
    ensures Split(prefix + "/" + name, SLASH) == Split(prefix, SLASH) + [name]
  {
    var pieces := Split(prefix, SLASH);
    JoinSnoc(pieces, name, SLASH);
    assert prefix + [SLASH] + name == prefix + "/" + name;
    SplitJoin(pieces + [name], SLASH);
  }

  // ---- What dots do ----

  /** A `..` at the end takes one component away; at the root nothing, and otherwise it stays when there is
      no component before it to take. */
  lemma DotDotTakesOne(path: string)
    requires path != ""
    ensures var parts := Components(path);
            Components(path + "/..")
            == if parts != [] && parts[|parts| - 1] != ".." then parts[..|parts| - 1]
               else if path[0] == '/' then parts
               else parts + [".."]
  {
    ComponentsSnoc(path, "..");
    assert path + "/" + ".." == path + "/..";
    hide CleanAll, Split;
  }

  /** A dot or another slash at the end changes nothing. */
  lemma DotIsNothing(path: string)
    requires path != ""
    ensures Components(path + "/.") == Components(path) == Components(path + "/")
  {
    ComponentsSnoc(path, ".");
    ComponentsSnoc(path, "");
    assert path + "/" + "" == path + "/" && path + "/" + "." == path + "/.";
    hide CleanAll, Split;
  }

  lemma ComponentsSnoc(path: string, piece: string)
    requires path != "" && SLASH !in piece
    ensures Components(path + "/" + piece) == CleanStep(Rooted(path), Components(path), piece)
  {
    var pieces := Split(path, SLASH);
    SplitSnoc(path, piece);
    assert (pieces + [piece])[..|pieces|] == pieces;
    assert (path + "/" + piece)[0] == path[0];
    hide Split;
  }
}

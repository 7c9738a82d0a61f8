/**
 * `parseRootPath` of SpecificationFactory (the same code is repeated in
 * AbstractWrapper): an attribute name with dots is resolved one segment at a
 * time, `root.get(a).get(b)...`. A path is modelled by its list of segments;
 * `None` is the null path the Java code returns when no segment is left.
 */
module Paths {
  import opened Common

  /** The pieces between the dots of `s`, empty pieces included. */
  function Pieces(s: string): (r: seq<string>)
    ensures |r| >= 1
    ensures forall i :: 0 <= i < |r| ==> '.' !in r[i]
    decreases |s|
  {
    if s == [] then [""]
    else
      var rest := Pieces(s[1..]);
      if s[0] == '.' then [""] + rest else [[s[0]] + rest[0]] + rest[1..]
  }

  /** The pieces joined again with '.'. */
  function JoinDot(ps: seq<string>): string
  {
    if ps == [] then ""
    else if |ps| == 1 then ps[0]
    else ps[0] + "." + JoinDot(ps[1..])
  }

  /** Java's `split` drops the empty strings at the end of its result. */
  function DropTrailingEmpty(ps: seq<string>): (r: seq<string>)
    ensures |r| <= |ps| && r == ps[..|r|]
    ensures r == [] || r[|r| - 1] != ""
    ensures forall i :: |r| <= i < |ps| ==> ps[i] == ""
  {
    if ps == [] then []
    else if ps[|ps| - 1] == "" then DropTrailingEmpty(ps[..|ps| - 1])
    else ps
  }

  /** `attrName.split("\\.")`. */
  function SplitDot(s: string): seq<string>
  {
    DropTrailingEmpty(Pieces(s))
  }

  /** The path `parseRootPath` resolves, or None for the null it can return. */
  function RootPath(attrName: string): Option<seq<string>>
  {
    if '.' !in attrName then Some([attrName])
    else if SplitDot(attrName) == [] then None
    else Some(SplitDot(attrName))
  }

  method ParseRootPath(attrName: string) returns (path: Option<seq<string>>)
    ensures path == RootPath(attrName)
  {
    path := None;
    if '.' in attrName {
      var attrArr := SplitDot(attrName);
      var i := 0;
      while i <= |attrArr| - 1
        invariant 0 <= i <= |attrArr|
        invariant i == 0 ==> path.None?
        invariant i > 0 ==> path == Some(attrArr[..i])
      {
        assert attrArr[..i + 1] == attrArr[..i] + [attrArr[i]];
        if path.None? {
          assert attrArr[..1] == [attrArr[0]];
          path := Some([attrArr[i]]);
        } else {
          path := Some(path.value + [attrArr[i]]);
        }
        i := i + 1;
      }
      assert attrArr[..|attrArr|] == attrArr;
    } else {
      path := Some([attrName]);
    }
  }

  /** Splitting and joining again gives back the name. */
  lemma {:induction false} JoinPieces(s: string)
    ensures JoinDot(Pieces(s)) == s
    decreases |s|
  {
    if s != [] {
      JoinPieces(s[1..]);
      var rest := Pieces(s[1..]);
      if s[0] == '.' {
        assert Pieces(s) == [""] + rest;
        assert s == [s[0]] + s[1..];
      } else {
        assert s == [s[0]] + s[1..];
        if |rest| > 1 {
          assert JoinDot(rest) == rest[0] + "." + JoinDot(rest[1..]);
        }
      }
    }
  }

  /** The last piece is empty only when the name is empty or ends with a dot. */
  lemma {:induction false} LastPieceEmpty(s: string)
    ensures Pieces(s)[|Pieces(s)| - 1] == "" ==> s == [] || s[|s| - 1] == '.'
    decreases |s|
  {
    if s != [] {
      LastPieceEmpty(s[1..]);
      var rest := Pieces(s[1..]);
      var last := Pieces(s)[|Pieces(s)| - 1];
      if s[0] == '.' {
        assert last == rest[|rest| - 1];
      } else if |rest| == 1 {
        assert last == [s[0]] + rest[0];
      } else {
        assert last == rest[|rest| - 1];
      }
    }
  }

  /** A name made of dots only leaves no segment, so the path is null. */
  lemma {:induction false} OnlyDots(s: string)
    requires forall i :: 0 <= i < |s| ==> s[i] == '.'
    ensures forall i :: 0 <= i < |Pieces(s)| ==> Pieces(s)[i] == ""
    ensures s != [] ==> RootPath(s) == None
    decreases |s|
  {
    if s != [] {
      OnlyDots(s[1..]);
      assert '.' in s by { assert s[0] == '.'; }
    }
  }

  /**
   * A dotted name that does not end with a dot resolves to all its pieces,
   * none of which contains a dot, and they join back to the name.
   */
  lemma RootPathSegments(attrName: string)
    requires '.' in attrName && attrName[|attrName| - 1] != '.'
    ensures RootPath(attrName) == Some(Pieces(attrName))
    ensures forall i :: 0 <= i < |Pieces(attrName)| ==> '.' !in Pieces(attrName)[i]
    ensures JoinDot(Pieces(attrName)) == attrName
  {
    LastPieceEmpty(attrName);
    JoinPieces(attrName);
  }
}

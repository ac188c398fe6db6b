/** The error-path composer: the location strings that say where, inside a
    nested input, a validation failed. Paths are built innermost first, so
    each call prepends one segment to the path its callee reported. */
module Paths {
  import opened Decimal

  /** The `here` argument of indexedPath: a number or a string key. */
  datatype Key = Index(n: int) | Name(k: string)

  /** The bracketed rendering of one key: `[3]` or `["horse"]`. */
  function Segment(here: Key): (seg: string)
    ensures |seg| >= 2 && seg[0] == '[' && seg[|seg| - 1] == ']'
  {
    match here
    case Index(n) => "[" + IntToString(n) + "]"
    case Name(k) => "[\"" + k + "\"]"
  }

  /** Prepends the bracketed segment of here to inner: no separator before
      another bracket segment or an empty inner path, a dot otherwise. */
  function IndexedPath(here: Key, inner: string): (r: string)
    ensures r == Segment(here) + Separator(inner) + inner
    ensures r[0] == '['
  {
    var seg := Segment(here);
    if inner == "" then seg
    else if inner[0] == '[' then seg + inner
    else seg + "." + inner
  }

  /** The separator IndexedPath puts between a segment and inner. */
  function Separator(inner: string): (sep: string)
    ensures |sep| <= 1 && (sep == "" || sep == ".")
  {
    if inner == "" || inner[0] == '[' then "" else "."
  }

  /** Prepends a bare member name to inner, joined by a dot when inner is
      not empty. Nothing but that one dot is added: no bracket. */
  function MemberPath(here: string, inner: string): (r: string)
    ensures |r| == |here| + |inner| + (if inner == "" then 0 else 1)
    ensures r[..|here|] == here
    ensures r[|r| - |inner|..] == inner
    ensures inner != "" ==> r[|here|] == '.'
  {
    if inner == "" then here else here + "." + inner
  }

  /** The index of the first c in s at or after from. */
  function FindChar(s: string, c: char, from: nat): (r: Option<nat>)
    ensures r.Some? ==> from <= r.value < |s| && s[r.value] == c
    ensures r.Some? ==> forall k :: from <= k < r.value ==> s[k] != c
    ensures r.None? ==> forall k :: from <= k < |s| ==> s[k] != c
    decreases |s| - from
  {
    if from >= |s| then None
    else if s[from] == c then Some(from)
    else FindChar(s, c, from + 1)
  }

  /** The first c at or after from is at j when s[j] is c and no c comes
      between from and j. */
  lemma FindCharAt(s: string, c: char, from: nat, j: nat)
    requires from <= j < |s| && s[j] == c
    requires forall k :: from <= k < j ==> s[k] != c
    ensures FindChar(s, c, from) == Some(j)
  {
  }

  /** What follows a segment: the inner path IndexedPath joined to it. */
  function InnerAfterSegment(rest: string): Option<string> {
    if rest == "" then Some("")
    else if rest[0] == '[' then Some(rest)
    else if rest[0] == '.' then Some(rest[1..])
    else None
  }

  /** Reads back a path that starts with a numeric segment. */
  function SplitIndexed(r: string): Option<(int, string)> {
    if |r| == 0 || r[0] != '[' then None
    else
      match FindChar(r, ']', 1)
      case None => None
      case Some(j) =>
        match (ParseInt(r[1..j]), InnerAfterSegment(r[j + 1..]))
        case (Some(n), Some(inner)) => Some((n, inner))
        case _ => None
  }

  /** Reads back a path that starts with a quoted string-key segment. */
  function SplitQuoted(r: string): Option<(string, string)> {
    if |r| < 2 || r[0] != '[' || r[1] != '"' then None
    else
      match FindChar(r, '"', 2)
      case None => None
      case Some(j) =>
        if j + 1 < |r| && r[j + 1] == ']' then
          match InnerAfterSegment(r[j + 2..])
          case Some(inner) => Some((r[2..j], inner))
          case None => None
        else None
  }

  /** Reads back a path that starts with a member name. */
  function SplitMember(r: string): (string, string) {
    match FindChar(r, '.', 0)
    case None => (r, "")
    case Some(j) => (r[..j], r[j + 1..])
  }

  lemma InnerAfterSegmentInverts(inner: string)
    ensures InnerAfterSegment(Separator(inner) + inner) == Some(inner)
  {
    if inner != "" && inner[0] != '[' {
      assert Separator(inner) == ".";
      assert (Separator(inner) + inner)[0] == '.';
      assert (Separator(inner) + inner)[1..] == inner;
    } else {
      assert Separator(inner) + inner == inner;
    }
  }

  /** A bracket segment whose body holds no closing bracket splits into
      that body and the text after the bracket. */
  lemma BracketSplit(body: string, tail: string)
    requires forall i :: 0 <= i < |body| ==> body[i] != ']'
    ensures ParseInt(body).Some? && InnerAfterSegment(tail).Some? ==>
      SplitIndexed("[" + body + "]" + tail) == Some((ParseInt(body).value, InnerAfterSegment(tail).value))
  {
    var r := "[" + body + "]" + tail;
    var j := |body| + 1;
    assert r[j] == ']';
    forall k | 1 <= k < j ensures r[k] != ']' {
      assert r[k] == body[k - 1];
    }
    FindCharAt(r, ']', 1, j);
    assert r[1..j] == body;
    assert r[j + 1..] == tail;
  }

  /** A path that starts with a numeric index determines the index and the
      inner path it was built from. */
  lemma {:induction false} IndexedPathNumericRoundTrip(n: int, inner: string)
    ensures SplitIndexed(IndexedPath(Index(n), inner)) == Some((n, inner))
  {
    var digits := IntToString(n);
    assert IndexedPath(Index(n), inner) == "[" + digits + "]" + (Separator(inner) + inner);
    forall i | 0 <= i < |digits| ensures digits[i] != ']' {
    }
    IntToStringRoundTrip(n);
    InnerAfterSegmentInverts(inner);
    BracketSplit(digits, Separator(inner) + inner);
  }

  /** A path that starts with a string key free of double quotes determines
      the key and the inner path it was built from. */
  lemma {:induction false} IndexedPathQuotedRoundTrip(k: string, inner: string)
    requires '"' !in k
    ensures SplitQuoted(IndexedPath(Name(k), inner)) == Some((k, inner))
  {
    var r := IndexedPath(Name(k), inner);
    var j := |k| + 2;
    assert r == "[\"" + k + "\"]" + Separator(inner) + inner;
    assert r[j] == '"';
    forall i | 2 <= i < j ensures r[i] != '"' {
      assert r[i] == k[i - 2];
    }
    FindCharAt(r, '"', 2, j);
    assert r[2..j] == k;
    assert r[j + 2..] == Separator(inner) + inner;
    InnerAfterSegmentInverts(inner);
  }

  /** A path that starts with a member name free of dots determines the
      name and the inner path it was built from. */
  lemma {:induction false} MemberPathRoundTrip(here: string, inner: string)
    requires '.' !in here
    ensures SplitMember(MemberPath(here, inner)) == (here, inner)
  {
    var r := MemberPath(here, inner);
    if inner == "" {
      assert FindChar(r, '.', 0).None?;
    } else {
      assert r == here + "." + inner;
      forall i | 0 <= i < |here| ensures r[i] != '.' {
        assert r[i] == here[i];
      }
      FindCharAt(r, '.', 0, |here|);
      assert r[..|here|] == here && r[|here| + 1..] == inner;
    }
  }

  /** The three ways IndexedPath joins a segment to the inner path. */
  lemma IndexedPathJoins(here: Key, inner: string)
    ensures inner == "" ==> IndexedPath(here, inner) == Segment(here)
    ensures inner != "" && inner[0] == '[' ==> IndexedPath(here, inner) == Segment(here) + inner
    ensures inner != "" && inner[0] != '[' ==> IndexedPath(here, inner) == Segment(here) + "." + inner
  {
  }

  /** The renderings the composer is expected to produce for numeric
      indices. */
  lemma IndexedPathExamples()
    ensures IndexedPath(Index(3), "") == "[3]"
    ensures IndexedPath(Index(3), "horse") == "[3].horse"
    ensures IndexedPath(Index(0), "[1]") == "[0][1]"
  {
    assert NatToString(3) == [DigitChar(3)] == "3";
    assert Segment(Index(3)) == "[3]";
    assert Segment(Index(0)) == "[0]";
  }

  /** The renderings the composer is expected to produce for string keys. */
  lemma IndexedPathKeyExamples()
    ensures IndexedPath(Name("horse"), "") == "[\"horse\"]"
    ensures IndexedPath(Name("horse"), "goat") == "[\"horse\"].goat"
  {
  }

  lemma MemberPathExamples()
    ensures MemberPath("horse", "") == "horse"
    ensures MemberPath("horse", "goat") == "horse.goat"
  {
  }
}

/** The string operations the level loader relies on: splitting on a
    separator (leftmost, non-overlapping matches, empty pieces kept),
    breaking text into lines with the standard library's rules, and joining
    pieces with a separator between them. */
module Text {
  import opened World

  predicate OccursAt(s: string, sep: string, i: nat) {
    i + |sep| <= |s| && s[i..i + |sep|] == sep
  }

  ghost predicate Contains(s: string, sep: string) {
    exists i: nat :: OccursAt(s, sep, i)
  }

  /** The leftmost occurrence of `sep` in `s` at or after `from`. */
  function FindFrom(s: string, sep: string, from: nat): (r: Option<nat>)
    requires |sep| > 0
    ensures r.Some? ==> from <= r.value && OccursAt(s, sep, r.value)
    ensures forall j: nat :: from <= j && (r.None? || j < r.value) ==> !OccursAt(s, sep, j)
    decreases |s| - from
  {
    if from + |sep| > |s| then None
    else if s[from..from + |sep|] == sep then Some(from)
    else FindFrom(s, sep, from + 1)
  }

  /** `s` cut at every occurrence of `sep`, scanning left to right. */
  function Split(s: string, sep: string): (parts: seq<string>)
    requires |sep| > 0
    ensures |parts| >= 1
    decreases |s|
  {
    match FindFrom(s, sep, 0)
    case None => [s]
    case Some(i) => [s[..i]] + Split(s[i + |sep|..], sep)
  }

  /** The pieces with one `sep` between neighbours and none at either end. */
  function Join(parts: seq<string>, sep: string): string {
    if |parts| == 0 then ""
    else if |parts| == 1 then parts[0]
    else parts[0] + sep + Join(parts[1..], sep)
  }

  /** Joining a piece in front of a non-empty list puts one separator between. */
  lemma JoinCons(a: string, parts: seq<string>, sep: string)
    requires |parts| >= 1
    ensures Join([a] + parts, sep) == a + sep + Join(parts, sep)
  {
    assert ([a] + parts)[1..] == parts;
  }

  /** Splitting loses nothing: joining the pieces back gives the input. */
  lemma {:induction false} JoinSplit(s: string, sep: string)
    requires |sep| > 0
    ensures Join(Split(s, sep), sep) == s
    decreases |s|
  {
    var r := FindFrom(s, sep, 0);
    if r.Some? {
      var i := r.value;
      var rest := s[i + |sep|..];
      assert Split(s, sep) == [s[..i]] + Split(rest, sep);
      JoinSplit(rest, sep);
      JoinCons(s[..i], Split(rest, sep), sep);
      CutAt(s, i, sep);
    }
  }

  /** A text is its part before an occurrence of `sep`, `sep`, and the rest. */
  lemma CutAt(s: string, i: nat, sep: string)
    requires OccursAt(s, sep, i)
    ensures s == s[..i] + sep + s[i + |sep|..]
  {
    assert s == s[..i] + s[i..i + |sep|] + s[i + |sep|..];
  }

  /** No piece contains the separator. */
  lemma {:induction false} SplitPiecesFree(s: string, sep: string)
    requires |sep| > 0
    ensures forall k :: 0 <= k < |Split(s, sep)| ==> !Contains(Split(s, sep)[k], sep)
    decreases |s|
  {
    match FindFrom(s, sep, 0)
    case None =>
      assert !Contains(s, sep);
    case Some(i) =>
      var rest := s[i + |sep|..];
      SplitPiecesFree(rest, sep);
      forall j: nat ensures !OccursAt(s[..i], sep, j) {
        if j + |sep| <= i {
          assert s[..i][j..j + |sep|] == s[j..j + |sep|];
          assert !OccursAt(s, sep, j);
        }
      }
      forall k | 0 <= k < |Split(s, sep)|
        ensures !Contains(Split(s, sep)[k], sep)
      {
        if k > 0 {
          assert Split(s, sep)[k] == Split(rest, sep)[k - 1];
        }
      }
  }

  /** For a one-character separator, "contains" is plain membership. */
  lemma ContainsChar(s: string, c: char)
    ensures Contains(s, [c]) <==> c in s
  {
    if c in s {
      var i :| 0 <= i < |s| && s[i] == c;
      assert s[i..i + 1] == [c];
      assert OccursAt(s, [c], i);
    }
    if Contains(s, [c]) {
      var i: nat :| OccursAt(s, [c], i);
      assert s[i..i + 1][0] == s[i];
    }
  }

  /** Splitting on one character undoes a join on it, as long as no piece
      holds that character. */
  lemma {:induction false} SplitJoin(parts: seq<string>, c: char)
    requires |parts| >= 1
    requires forall k :: 0 <= k < |parts| ==> c !in parts[k]
    ensures Split(Join(parts, [c]), [c]) == parts
    decreases |parts|
  {
    var s := Join(parts, [c]);
    var p := parts[0];
    ContainsChar(p, c);
    if |parts| == 1 {
      forall j: nat ensures !OccursAt(s, [c], j) {
        if j < |s| {
          assert s[j..j + 1] == [s[j]];
        }
      }
      assert FindFrom(s, [c], 0).None?;
    } else {
      var rest := Join(parts[1..], [c]);
      assert s == p + [c] + rest;
      var i := |p|;
      assert OccursAt(s, [c], i) by { assert s[i..i + 1] == [c]; }
      forall j: nat | j < i ensures !OccursAt(s, [c], j) {
        assert s[j..j + 1] == [s[j]] && s[j] == p[j];
      }
      assert FindFrom(s, [c], 0) == Some(i);
      assert s[..i] == p;
      assert s[i + 1..] == rest;
      SplitJoin(parts[1..], c);
      assert parts == [p] + parts[1..];
    }
  }

  /** A line terminated by "\r\n" loses its '\r'. */
  function StripCR(line: string): string {
    if |line| > 0 && line[|line| - 1] == '\r' then line[..|line| - 1] else line
  }

  /** The lines of `s`: cut at each '\n'; a final line ending adds no empty
      line; a '\r' just before a '\n' belongs to the line ending. */
  function Lines(s: string): (ls: seq<string>)
    ensures forall k :: 0 <= k < |ls| ==> '\n' !in ls[k]
  {
    if s == "" then []
    else
      var parts := Split(s, "\n");
      var body := parts[..|parts| - 1];
      var last := parts[|parts| - 1];
      LinesFree(s);
      seq(|body|, k requires 0 <= k < |body| => StripCR(body[k])) + (if last == "" then [] else [last])
  }

  /** Appending a piece to a non-empty list appends the separator and the piece. */
  lemma {:induction false} JoinSnoc(parts: seq<string>, sep: string, x: string)
    requires |parts| >= 1
    ensures Join(parts + [x], sep) == Join(parts, sep) + sep + x
    decreases |parts|
  {
    if |parts| > 1 {
      JoinSnoc(parts[1..], sep, x);
      assert (parts + [x])[1..] == parts[1..] + [x];
    }
  }

  /** Every character of a piece occurs in the joined text. */
  lemma {:induction false} PieceInJoin(parts: seq<string>, sep: string, k: nat)
    requires k < |parts|
    ensures forall ch :: ch in parts[k] ==> ch in Join(parts, sep)
    decreases k
  {
    if k > 0 {
      PieceInJoin(parts[1..], sep, k - 1);
      assert parts[1..][k - 1] == parts[k];
    }
  }

  /** Lines lose nothing but the line breaks: in a text without carriage
      returns, joining the lines with '\n' gives back the text, up to one
      final line break. */
  lemma {:induction false} LinesJoin(s: string)
    requires '\r' !in s
    ensures s == Join(Lines(s), "\n") || s == Join(Lines(s), "\n") + "\n"
  {
    if s != "" {
      var parts := Split(s, "\n");
      JoinSplit(s, "\n");
      var body := parts[..|parts| - 1];
      var last := parts[|parts| - 1];
      var stripped := seq(|body|, k requires 0 <= k < |body| => StripCR(body[k]));
      forall k | 0 <= k < |body| ensures stripped[k] == body[k] {
        PieceInJoin(parts, "\n", k);
        assert body[k] == parts[k];
        if |body[k]| > 0 {
          assert body[k][|body[k]| - 1] in body[k];
        }
      }
      assert stripped == body;
      assert parts == body + [last];
      assert Lines(s) == body + (if last == "" then [] else [last]);
      if |body| == 0 {
        assert parts == [last] && Join(parts, "\n") == last == s;
        assert Lines(s) == [last];
      } else {
        JoinSnoc(body, "\n", last);
        assert s == Join(body, "\n") + "\n" + last;
        if last == "" {
          assert Lines(s) == body;
          assert s == Join(body, "\n") + "\n";
        } else {
          assert Lines(s) == body + [last];
        }
      }
    }
  }

  lemma LinesFree(s: string)
    ensures forall k :: 0 <= k < |Split(s, "\n")| ==> '\n' !in Split(s, "\n")[k]
  {
    SplitPiecesFree(s, "\n");
    forall k | 0 <= k < |Split(s, "\n")| ensures '\n' !in Split(s, "\n")[k] {
      ContainsChar(Split(s, "\n")[k], '\n');
    }
  }
}

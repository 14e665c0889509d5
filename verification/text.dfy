/** The handful of Rust `str` operations the server's configuration and header
    handling rely on: `char::is_whitespace`, `trim`, `split`, `strip_prefix`
    and `to_ascii_lowercase`, over strings as sequences of characters. */
module Text {
  import opened Wrappers

  /** Rust's `char::is_whitespace`: the characters with the Unicode
      White_Space property. */
  predicate IsWhitespace(c: char) {
    || ('\t' <= c <= '\r')
    || c == ' '
    || c == '\U{85}'
    || c == '\U{A0}'
    || c == '\U{1680}'
    || ('\U{2000}' <= c <= '\U{200A}')
    || c == '\U{2028}'
    || c == '\U{2029}'
    || c == '\U{202F}'
    || c == '\U{205F}'
    || c == '\U{3000}'
  }

  /** `s.trim().is_empty()`: every character is whitespace. */
  predicate IsBlank(s: string) {
    forall i :: 0 <= i < |s| ==> IsWhitespace(s[i])
  }

  /** The number of whitespace characters at the front of `s`. */
  function LeadingBlanks(s: string): (n: nat)
    ensures n <= |s|
    ensures forall i :: 0 <= i < n ==> IsWhitespace(s[i])
    ensures n < |s| ==> !IsWhitespace(s[n])
  {
    if |s| == 0 || !IsWhitespace(s[0]) then 0
    else
      var n := 1 + LeadingBlanks(s[1..]);
      assert forall i | 1 <= i < n :: s[i] == s[1..][i - 1];
      n
  }

  /** The number of whitespace characters at the end of `s`. */
  function TrailingBlanks(s: string): (n: nat)
    ensures n <= |s|
    ensures forall i :: |s| - n <= i < |s| ==> IsWhitespace(s[i])
    ensures n < |s| ==> !IsWhitespace(s[|s| - n - 1])
  {
    if |s| == 0 || !IsWhitespace(s[|s| - 1]) then 0
    else
      var init := s[..|s| - 1];
      var n := 1 + TrailingBlanks(init);
      assert forall i | |s| - n <= i < |s| - 1 :: s[i] == init[i];
      n
  }

  /** The bounds `[lo, hi)` of `s.trim()` inside `s`: leading whitespace is
      counted first, and trailing whitespace only when something is left. */
  function TrimRange(s: string): (b: (nat, nat))
    ensures b.0 <= b.1 <= |s|
    ensures forall i :: 0 <= i < b.0 ==> IsWhitespace(s[i])
    ensures forall i :: b.1 <= i < |s| ==> IsWhitespace(s[i])
    ensures b.0 < b.1 ==> !IsWhitespace(s[b.0]) && !IsWhitespace(s[b.1 - 1])
    ensures b.0 == b.1 <==> IsBlank(s)
  {
    var lo := LeadingBlanks(s);
    if lo == |s| then (lo, lo)
    else
      var hi := |s| - TrailingBlanks(s);
      assert lo < hi;
      (lo, hi)
  }

  /** Rust's `str::trim`. */
  function Trim(s: string): (r: string)
    ensures |r| <= |s|
    ensures |r| == 0 <==> IsBlank(s)
    ensures |r| > 0 ==> !IsWhitespace(r[0]) && !IsWhitespace(r[|r| - 1])
    ensures |s| > 0 && !IsWhitespace(s[0]) && !IsWhitespace(s[|s| - 1]) ==> r == s
    ensures exists lo: nat, hi: nat :: TrimCut(s, lo, hi) && r == s[lo..hi]
  {
    var b := TrimRange(s);
    assert TrimCut(s, b.0, b.1);
    s[b.0..b.1]
  }

  /** `[lo, hi)` cuts `s` into a whitespace prefix, a middle and a whitespace
      suffix, and the middle is empty or starts and ends with a
      non-whitespace character. */
  predicate TrimCut(s: string, lo: nat, hi: nat) {
    && lo <= hi <= |s|
    && (forall i :: 0 <= i < lo ==> IsWhitespace(s[i]))
    && (forall i :: hi <= i < |s| ==> IsWhitespace(s[i]))
    && (lo < hi ==> !IsWhitespace(s[lo]) && !IsWhitespace(s[hi - 1]))
  }

  /** Whatever cut is chosen, its middle is `trim`'s result: together with
      `Trim`'s own contract, `trim` is exactly the middle of such a cut. */
  lemma TrimCharacterization(s: string, lo: nat, hi: nat)
    requires TrimCut(s, lo, hi)
    ensures Trim(s) == s[lo..hi]
  {
    var b := TrimRange(s);
    if lo < hi {
      assert !IsBlank(s);
      assert b.0 == lo;
      assert b.1 == hi;
    } else {
      assert IsBlank(s) by {
        forall i | 0 <= i < |s| ensures IsWhitespace(s[i]) {
          if i >= lo { assert i >= hi; }
        }
      }
    }
  }

  /** The number of characters of `s` that belong to `seps`. */
  function CountIn(s: string, seps: set<char>): nat {
    if |s| == 0 then 0 else (if s[0] in seps then 1 else 0) + CountIn(s[1..], seps)
  }

  /** No character of `s` is one of `seps`. */
  predicate Avoids(s: string, seps: set<char>) {
    forall i :: 0 <= i < |s| ==> s[i] !in seps
  }

  /** Rust's `str::split` with a set of single-character separators: the
      pieces between separators, including empty ones, always at least one. */
  function Split(s: string, seps: set<char>): (r: seq<string>)
    ensures |r| == CountIn(s, seps) + 1
    ensures forall i :: 0 <= i < |r| ==> Avoids(r[i], seps)
  {
    if |s| == 0 then [""]
    else
      var rest := Split(s[1..], seps);
      if s[0] in seps then [""] + rest
      else
        var r := [[s[0]] + rest[0]] + rest[1..];
        assert Avoids(r[0], seps) by { assert forall j | 1 <= j < |r[0]| :: r[0][j] == rest[0][j - 1]; }
        assert forall i | 1 <= i < |r| :: r[i] == rest[i];
        r
  }

  /** The characters of `s` that belong to `seps`, in order: the separators
      `Split` cuts at. */
  function Separators(s: string, seps: set<char>): (r: seq<char>)
    ensures |r| == CountIn(s, seps)
    ensures forall i :: 0 <= i < |r| ==> r[i] in seps
  {
    if |s| == 0 then [] else (if s[0] in seps then [s[0]] else []) + Separators(s[1..], seps)
  }

  /** Pieces with one separator character between each pair of neighbours. */
  function Interleave(pieces: seq<string>, cs: seq<char>): string
    requires |pieces| == |cs| + 1
  {
    if |cs| == 0 then pieces[0] else pieces[0] + [cs[0]] + Interleave(pieces[1..], cs[1..])
  }

  /** Splitting on a set of separators loses nothing: putting back, between
      the pieces, the separators in the order they occurred rebuilds the text. */
  lemma {:induction false} SplitRebuild(s: string, seps: set<char>)
    ensures Interleave(Split(s, seps), Separators(s, seps)) == s
  {
    if |s| > 0 {
      var rest := Split(s[1..], seps);
      var cs := Separators(s[1..], seps);
      SplitRebuild(s[1..], seps);
      if s[0] !in seps {
        var r := [[s[0]] + rest[0]] + rest[1..];
        assert r[1..] == rest[1..];
        assert Separators(s, seps) == cs;
        if |cs| > 0 {
          assert Interleave(rest, cs) == rest[0] + [cs[0]] + Interleave(rest[1..], cs[1..]);
        }
        assert Interleave(r, cs) == [s[0]] + Interleave(rest, cs);
      } else {
        assert ([""] + rest)[1..] == rest;
      }
    }
  }

  /** The pieces glued back together with `sep` between neighbours. */
  function Join(pieces: seq<string>, sep: char): string
    requires |pieces| >= 1
  {
    if |pieces| == 1 then pieces[0] else pieces[0] + [sep] + Join(pieces[1..], sep)
  }

  /** Splitting on one separator loses nothing: joining the pieces with that
      separator gives back the original text. */
  lemma {:induction false} SplitJoin(s: string, sep: char)
    ensures Join(Split(s, {sep}), sep) == s
  {
    if |s| > 0 {
      var rest := Split(s[1..], {sep});
      SplitJoin(s[1..], sep);
      if s[0] != sep {
        var r := [[s[0]] + rest[0]] + rest[1..];
        assert r[1..] == rest[1..];
        if |rest| > 1 {
          assert Join(rest, sep) == rest[0] + [sep] + Join(rest[1..], sep);
        }
        assert Join(r, sep) == [s[0]] + Join(rest, sep);
      }
    }
  }

  /** Joining separator-free pieces and splitting again gives the pieces back. */
  lemma {:induction false} SplitOfJoin(pieces: seq<string>, sep: char, seps: set<char>)
    requires |pieces| >= 1 && sep in seps
    requires forall i :: 0 <= i < |pieces| ==> Avoids(pieces[i], seps)
    ensures Split(Join(pieces, sep), seps) == pieces
  {
    if |pieces| == 1 {
      SplitWithoutSeparator(pieces[0], seps);
    } else {
      SplitOfJoin(pieces[1..], sep, seps);
      SplitFirstPiece(pieces[0], sep, Join(pieces[1..], sep), seps);
      assert [pieces[0]] + pieces[1..] == pieces;
    }
  }

  /** Text without separators is a single piece. */
  lemma {:induction false} SplitWithoutSeparator(s: string, seps: set<char>)
    requires Avoids(s, seps)
    ensures Split(s, seps) == [s]
  {
    if |s| > 0 {
      SplitWithoutSeparator(s[1..], seps);
      assert [s[0]] + s[1..] == s;
    }
  }

  /** A separator-free first piece, then a separator, then the rest: the
      first piece stands alone and the rest splits on its own. */
  lemma {:induction false} SplitFirstPiece(a: string, c: char, b: string, seps: set<char>)
    requires Avoids(a, seps)
    requires c in seps
    ensures Split(a + [c] + b, seps) == [a] + Split(b, seps)
  {
    var s := a + [c] + b;
    if |a| == 0 {
      assert s[1..] == b;
    } else {
      assert s[1..] == a[1..] + [c] + b;
      SplitFirstPiece(a[1..], c, b, seps);
      assert [a[0]] + a[1..] == a;
    }
  }

  /** Two separator-free pieces around one separator split back into
      exactly those two pieces. */
  lemma SplitTwo(a: string, c: char, b: string, seps: set<char>)
    requires Avoids(a, seps) && Avoids(b, seps) && c in seps
    ensures Split(a + [c] + b, seps) == [a, b]
  {
    SplitFirstPiece(a, c, b, seps);
    SplitWithoutSeparator(b, seps);
  }

  /** Rust's `.filter(|p| !p.trim().is_empty())`: the non-blank pieces, in order. */
  function DropBlank(pieces: seq<string>): (r: seq<string>)
    ensures |r| <= |pieces|
    ensures forall i :: 0 <= i < |r| ==> !IsBlank(r[i])
    ensures forall x :: x in r <==> x in pieces && !IsBlank(x)
    ensures (forall i :: 0 <= i < |pieces| ==> !IsBlank(pieces[i])) ==> r == pieces
  {
    if |pieces| == 0 then []
    else
      var rest := DropBlank(pieces[1..]);
      assert forall x :: x in pieces <==> x == pieces[0] || x in pieces[1..];
      if IsBlank(pieces[0]) then rest else [pieces[0]] + rest
  }

  /** The filter works piece by piece: the kept pieces of a concatenation
      are the kept pieces of each part, in order and with repetitions. */
  lemma {:induction false} DropBlankAppend(a: seq<string>, b: seq<string>)
    ensures DropBlank(a + b) == DropBlank(a) + DropBlank(b)
  {
    if |a| == 0 {
      assert a + b == b;
    } else {
      assert (a + b)[0] == a[0];
      assert (a + b)[1..] == a[1..] + b;
      DropBlankAppend(a[1..], b);
    }
  }

  /** Appending one piece keeps it exactly when it is not blank. */
  lemma DropBlankSnoc(pieces: seq<string>, x: string)
    ensures DropBlank(pieces + [x]) == DropBlank(pieces) + (if IsBlank(x) then [] else [x])
  {
    DropBlankAppend(pieces, [x]);
    assert DropBlank([x]) == (if IsBlank(x) then [] else [x]) by {
      assert [x][1..] == [];
    }
  }

  /** Dropping blank pieces keeps every remaining piece free of separators. */
  lemma {:induction false} DropBlankAvoids(pieces: seq<string>, seps: set<char>)
    requires forall i :: 0 <= i < |pieces| ==> Avoids(pieces[i], seps)
    ensures forall i :: 0 <= i < |DropBlank(pieces)| ==> Avoids(DropBlank(pieces)[i], seps)
  {
    if |pieces| > 0 {
      DropBlankAvoids(pieces[1..], seps);
      assert forall i | 0 <= i < |pieces[1..]| :: pieces[1..][i] == pieces[i + 1];
    }
  }

  /** Rust's `.map(|p| p.trim())` over a list of pieces. */
  function TrimAll(pieces: seq<string>): (r: seq<string>)
    ensures |r| == |pieces|
    ensures forall i :: 0 <= i < |r| ==> r[i] == Trim(pieces[i])
  {
    seq(|pieces|, i requires 0 <= i < |pieces| => Trim(pieces[i]))
  }

  /** The trimmed list holds exactly the trimmed forms of the pieces. */
  lemma {:induction false} TrimAllMembers(pieces: seq<string>)
    ensures forall x :: x in TrimAll(pieces) <==> exists p :: p in pieces && Trim(p) == x
  {
    var r := TrimAll(pieces);
    forall x | x in r ensures exists p :: p in pieces && Trim(p) == x {
      var i :| 0 <= i < |r| && r[i] == x;
      var p := pieces[i];
      assert p in pieces && Trim(p) == x;
    }
    forall x | exists p :: p in pieces && Trim(p) == x ensures x in r {
      var p :| p in pieces && Trim(p) == x;
      var i :| 0 <= i < |pieces| && pieces[i] == p;
      assert r[i] == x;
    }
  }

  /** Rust's `char::to_ascii_lowercase`. */
  function LowerChar(c: char): char {
    if 'A' <= c <= 'Z' then (c as int + 32) as char else c
  }

  /** Rust's `str::to_ascii_lowercase`: only `A`..`Z` change. */
  function AsciiLower(s: string): (r: string)
    ensures |r| == |s|
    ensures forall i :: 0 <= i < |s| ==> r[i] == LowerChar(s[i])
  {
    if |s| == 0 then "" else [LowerChar(s[0])] + AsciiLower(s[1..])
  }

  /** Rust's `str::strip_prefix`: the remainder after `prefix`, when `s`
      starts with it exactly (case-sensitive). */
  function StripPrefix(s: string, prefix: string): (r: Option<string>)
    ensures r.Some? <==> |prefix| <= |s| && s[..|prefix|] == prefix
    ensures r.Some? ==> prefix + r.value == s
  {
    if |prefix| <= |s| && s[..|prefix|] == prefix then Some(s[|prefix|..]) else None
  }
}

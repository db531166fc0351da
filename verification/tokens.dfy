/**
 Whitespace tokenisation of a stage reply, as Python's `str.split()` with no
 separator does it: runs of whitespace separate tokens, and leading or trailing
 whitespace produces no empty token.
 */
module Tokens {

  /** The characters for which Python's `str.isspace` holds. */
  predicate IsSpace(ch: char) {
    || ch == ' '
    || ('\t' <= ch <= '\r')
    || ('\U{1C}' <= ch <= '\U{1F}')
    || ch == '\U{85}' || ch == '\U{A0}' || ch == '\U{1680}'
    || ('\U{2000}' <= ch <= '\U{200A}')
    || ch == '\U{2028}' || ch == '\U{2029}' || ch == '\U{202F}'
    || ch == '\U{205F}' || ch == '\U{3000}'
  }

  /** A token as `str.split()` produces it: non-empty and free of whitespace. */
  ghost predicate IsToken(t: string) {
    |t| > 0 && forall k :: 0 <= k < |t| ==> !IsSpace(t[k])
  }

  /** The characters of `s` that are not whitespace, in order. */
  function NonSpace(s: string): string {
    if |s| == 0 then []
    else if IsSpace(s[0]) then NonSpace(s[1..])
    else [s[0]] + NonSpace(s[1..])
  }

  /** Length of the longest whitespace-free prefix of `s`. */
  function TokenLength(s: string): (n: nat)
    ensures n <= |s|
    ensures forall k :: 0 <= k < n ==> !IsSpace(s[k])
    ensures n < |s| ==> IsSpace(s[n])
  {
    if |s| == 0 || IsSpace(s[0]) then 0 else 1 + TokenLength(s[1..])
  }

  /** Python's `s.split()`. */
  function Split(s: string): (r: seq<string>)
    ensures forall j :: 0 <= j < |r| ==> IsToken(r[j])
    decreases |s|
  {
    if |s| == 0 then []
    else if IsSpace(s[0]) then Split(s[1..])
    else
      var n := TokenLength(s);
      [s[..n]] + Split(s[n..])
  }

  /** The tokens laid end to end. */
  function Concat(ts: seq<string>): string {
    if |ts| == 0 then [] else ts[0] + Concat(ts[1..])
  }

  /** The tokens separated by single spaces, the shape of a well-formed stage reply. */
  function Join(ts: seq<string>): string {
    if |ts| == 0 then []
    else if |ts| == 1 then ts[0]
    else ts[0] + " " + Join(ts[1..])
  }

  lemma {:induction false} NonSpaceAppend(a: string, b: string)
    ensures NonSpace(a + b) == NonSpace(a) + NonSpace(b)
    decreases |a|
  {
    if |a| == 0 {
      assert a + b == b;
    } else {
      assert (a + b)[1..] == a[1..] + b;
      NonSpaceAppend(a[1..], b);
    }
  }

  lemma {:induction false} NonSpaceOfToken(t: string)
    requires forall k :: 0 <= k < |t| ==> !IsSpace(t[k])
    ensures NonSpace(t) == t
    decreases |t|
  {
    if |t| > 0 {
      NonSpaceOfToken(t[1..]);
      assert [t[0]] + t[1..] == t;
    }
  }

  /** Splitting loses nothing but whitespace: the tokens hold every other character, in order. */
  lemma {:induction false} SplitKeepsContent(s: string)
    ensures Concat(Split(s)) == NonSpace(s)
    decreases |s|
  {
    if |s| == 0 {
    } else if IsSpace(s[0]) {
      SplitKeepsContent(s[1..]);
    } else {
      var n := TokenLength(s);
      assert s == s[..n] + s[n..];
      SplitKeepsContent(s[n..]);
      NonSpaceAppend(s[..n], s[n..]);
      NonSpaceOfToken(s[..n]);
      var r := Split(s);
      assert r == [s[..n]] + Split(s[n..]);
      assert r[1..] == Split(s[n..]);
    }
  }

  lemma {:induction false} SplitTokenFirst(t: string, rest: string)
    requires IsToken(t)
    requires |rest| == 0 || IsSpace(rest[0])
    ensures Split(t + rest) == [t] + Split(rest)
  {
    var s := t + rest;
    TokenLengthOfToken(t, rest);
    assert s[..|t|] == t;
    assert s[|t|..] == rest;
  }

  lemma {:induction false} TokenLengthOfToken(t: string, rest: string)
    requires IsToken(t)
    requires |rest| == 0 || IsSpace(rest[0])
    ensures TokenLength(t + rest) == |t|
  {
    var s := t + rest;
    assert forall k :: 0 <= k < |t| ==> s[k] == t[k];
    if |t| < |s| {
      assert s[|t|] == rest[0];
    }
  }

  /** Splitting a single-space-separated reply gives back exactly its tokens. */
  lemma {:induction false} SplitJoin(ts: seq<string>)
    requires forall j :: 0 <= j < |ts| ==> IsToken(ts[j])
    ensures Split(Join(ts)) == ts
    decreases |ts|
  {
    if |ts| == 0 {
    } else if |ts| == 1 {
      SplitTokenFirst(ts[0], []);
      assert ts[0] + [] == ts[0];
    } else {
      var rest := Join(ts[1..]);
      assert Join(ts) == ts[0] + (" " + rest);
      SplitTokenFirst(ts[0], " " + rest);
      assert (" " + rest)[1..] == rest;
      SplitJoin(ts[1..]);
      assert ts == [ts[0]] + ts[1..];
    }
  }

  /** A run of whitespace, possibly empty. */
  ghost predicate AllSpace(w: string) {
    forall k :: 0 <= k < |w| ==> IsSpace(w[k])
  }

  /** Tokens `ts` laid out with separator `ws[j]` in front of `ts[j]` and `ws[|ts|]` at the end. */
  function Interleave(ws: seq<string>, ts: seq<string>): string
    requires |ws| == |ts| + 1
    decreases |ts|
  {
    if |ts| == 0 then ws[0] else ws[0] + ts[0] + Interleave(ws[1..], ts[1..])
  }

  /**
   Separators a reply may use: whitespace only, with at least one character
   between two tokens; leading and trailing ones may be empty.
   */
  ghost predicate Separates(ws: seq<string>, ts: seq<string>) {
    && |ws| == |ts| + 1
    && (forall j :: 0 <= j < |ws| ==> AllSpace(ws[j]))
    && (forall j :: 0 < j < |ts| ==> |ws[j]| > 0)
  }

  /** Leading whitespace produces no token. */
  lemma {:induction false} SplitSkipsSpace(w: string, rest: string)
    requires AllSpace(w)
    ensures Split(w + rest) == Split(rest)
    decreases |w|
  {
    if |w| > 0 {
      assert (w + rest)[0] == w[0];
      assert (w + rest)[1..] == w[1..] + rest;
      SplitSkipsSpace(w[1..], rest);
    } else {
      assert w + rest == rest;
    }
  }

  lemma SeparatesTail(ws: seq<string>, ts: seq<string>)
    requires Separates(ws, ts) && |ts| > 0
    ensures Separates(ws[1..], ts[1..])
  {
    forall j | 0 <= j < |ws| - 1
      ensures AllSpace(ws[1..][j])
    {
      assert ws[1..][j] == ws[j + 1];
    }
    forall j | 0 < j < |ts| - 1
      ensures |ws[1..][j]| > 0
    {
      assert ws[1..][j] == ws[j + 1];
    }
  }

  /** An interleaving that ends a token is empty or opens with whitespace. */
  lemma {:induction false} InterleaveStart(ws: seq<string>, ts: seq<string>)
    requires |ws| == |ts| + 1 && AllSpace(ws[0])
    requires |ts| > 0 ==> |ws[0]| > 0
    ensures var s := Interleave(ws, ts); |s| == 0 || IsSpace(s[0])
  {
    var s := Interleave(ws, ts);
    if |ws[0]| > 0 {
      if |ts| > 0 {
        assert s == ws[0] + (ts[0] + Interleave(ws[1..], ts[1..]));
      }
      assert s[0] == ws[0][0];
    }
  }

  /** What follows the first token of an interleaving: whitespace first, and separators for the rest. */
  lemma InterleaveTail(ws: seq<string>, ts: seq<string>)
    requires Separates(ws, ts) && |ts| > 0
    ensures var rest := Interleave(ws[1..], ts[1..]); |rest| == 0 || IsSpace(rest[0])
    ensures Separates(ws[1..], ts[1..])
  {
    SeparatesTail(ws, ts);
    assert ws[1..][0] == ws[1];
    InterleaveStart(ws[1..], ts[1..]);
  }

  /**
   `str.split()` returns exactly the tokens of a reply, however many
   whitespace characters separate, lead or trail them.
   */
  lemma {:induction false} SplitInterleave(ws: seq<string>, ts: seq<string>)
    requires forall j :: 0 <= j < |ts| ==> IsToken(ts[j])
    requires Separates(ws, ts)
    ensures Split(Interleave(ws, ts)) == ts
    decreases |ts|
  {
    if |ts| == 0 {
      SplitSkipsSpace(ws[0], []);
      assert ws[0] + [] == ws[0];
    } else {
      var rest := Interleave(ws[1..], ts[1..]);
      InterleaveTail(ws, ts);
      assert Interleave(ws, ts) == ws[0] + (ts[0] + rest);
      SplitSkipsSpace(ws[0], ts[0] + rest);
      SplitTokenFirst(ts[0], rest);
      SplitInterleave(ws[1..], ts[1..]);
      assert ts == [ts[0]] + ts[1..];
    }
  }
}

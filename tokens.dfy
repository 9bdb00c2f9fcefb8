/**
 * Words of a text: splitting on whitespace (Rust's `str::split_whitespace`, which
 * `MarkovChain::learn` uses) and joining with single spaces (`join_words`).
 */
module Tokens {

  /** Rust's `char::is_whitespace`: the characters with the Unicode White_Space property. */
  predicate IsWhitespace(c: char) {
    || ('\t' <= c <= '\r')
    || c == ' '
    || c == '\U{0085}'
    || c == '\U{00A0}'
    || c == '\U{1680}'
    || ('\U{2000}' <= c <= '\U{200A}')
    || c == '\U{2028}'
    || c == '\U{2029}'
    || c == '\U{202F}'
    || c == '\U{205F}'
    || c == '\U{3000}'
  }

  /** A word as `split_whitespace` yields it: non-empty and free of whitespace. */
  predicate IsToken(w: string) {
    |w| > 0 && forall i :: 0 <= i < |w| ==> !IsWhitespace(w[i])
  }

  predicate AllTokens(ws: seq<string>) {
    forall i :: 0 <= i < |ws| ==> IsToken(ws[i])
  }

  /** Length of the run of non-whitespace characters at the start of `s`. */
  function WordLen(s: string): (k: nat)
    ensures k <= |s|
    ensures forall i :: 0 <= i < k ==> !IsWhitespace(s[i])
    ensures k < |s| ==> IsWhitespace(s[k])
  {
    if |s| == 0 || IsWhitespace(s[0]) then 0 else 1 + WordLen(s[1..])
  }

  /** `split_whitespace`: the maximal whitespace-free runs of `s`, in order. */
  function Split(s: string): (r: seq<string>)
    ensures AllTokens(r)
    decreases |s|
  {
    if |s| == 0 then []
    else if IsWhitespace(s[0]) then Split(s[1..])
    else
      var k := WordLen(s);
      [s[..k]] + Split(s[k..])
  }

  /** The characters of `s` that are not whitespace, in order. */
  function Strip(s: string): string {
    if |s| == 0 then ""
    else (if IsWhitespace(s[0]) then "" else [s[0]]) + Strip(s[1..])
  }

  function Concat(ws: seq<string>): string {
    if |ws| == 0 then "" else ws[0] + Concat(ws[1..])
  }

  /** `join_words`: the words separated by single spaces; the empty sequence gives "". */
  function Join(ws: seq<string>): string {
    if |ws| == 0 then ""
    else if |ws| == 1 then ws[0]
    else Join(ws[..|ws| - 1]) + " " + ws[|ws| - 1]
  }

  /** `join_words` as the source writes it: the first word, then a space and a word per step. */
  method JoinWords(words: seq<string>) returns (sentence: string)
    ensures sentence == Join(words)
  {
    if |words| == 0 {
      return "";
    }
    sentence := words[0];
    for i := 1 to |words|
      invariant sentence == Join(words[..i])
    {
      assert words[..i + 1][..i] == words[..i];
      sentence := sentence + " " + words[i];
    }
    assert words[..|words|] == words;
  }

  /** Joining peels off from the front as well as from the back. */
  lemma {:induction false} JoinCons(w: string, ws: seq<string>)
    requires |ws| > 0
    ensures Join([w] + ws) == w + " " + Join(ws)
    decreases |ws|
  {
    if |ws| == 1 {
      assert [w] + ws == [w, ws[0]];
    } else {
      var init := ws[..|ws| - 1];
      JoinCons(w, init);
      assert ([w] + ws)[..|ws|] == [w] + init;
    }
  }

  /** Joining two non-empty runs of words puts one space between their joins. */
  lemma {:induction false} JoinAppend(xs: seq<string>, ys: seq<string>)
    requires |xs| > 0 && |ys| > 0
    ensures Join(xs + ys) == Join(xs) + " " + Join(ys)
    decreases |ys|
  {
    var zs := xs + ys;
    if |ys| == 1 {
      assert zs[..|zs| - 1] == xs;
    } else {
      var init := ys[..|ys| - 1];
      assert zs[..|zs| - 1] == xs + init;
      JoinAppend(xs, init);
    }
  }

  /** The first word is a prefix of the joined text. */
  lemma JoinStartsWith(ws: seq<string>)
    requires |ws| > 0
    ensures ws[0] <= Join(ws)
  {
    if |ws| > 1 {
      JoinCons(ws[0], ws[1..]);
      assert [ws[0]] + ws[1..] == ws;
    }
  }

  /** A non-empty joined text has the total length of its words plus one space between each pair. */
  lemma {:induction false} JoinLength(ws: seq<string>)
    requires |ws| > 0
    ensures |Join(ws)| == |Concat(ws)| + |ws| - 1
    decreases |ws|
  {
    if |ws| > 1 {
      JoinCons(ws[0], ws[1..]);
      assert [ws[0]] + ws[1..] == ws;
      JoinLength(ws[1..]);
    }
  }

  lemma {:induction false} WordLenOfToken(w: string, t: string)
    requires IsToken(w)
    requires |t| == 0 || IsWhitespace(t[0])
    ensures WordLen(w + t) == |w|
    decreases |w|
  {
    if |w| > 1 {
      assert (w + t)[1..] == w[1..] + t;
      WordLenOfToken(w[1..], t);
    } else {
      assert (w + t)[1..] == t;
    }
  }

  lemma SplitTokenThen(w: string, t: string)
    requires IsToken(w)
    requires |t| == 0 || IsWhitespace(t[0])
    ensures Split(w + t) == [w] + Split(t)
  {
    WordLenOfToken(w, t);
    assert (w + t)[..|w|] == w;
    assert (w + t)[|w|..] == t;
  }

  /** Round trip: splitting the join of some tokens gives those tokens back. */
  lemma {:induction false} SplitJoin(ws: seq<string>)
    requires AllTokens(ws)
    ensures Split(Join(ws)) == ws
    decreases |ws|
  {
    if |ws| == 1 {
      SplitTokenThen(ws[0], "");
      assert ws[0] + "" == ws[0];
    } else if |ws| > 1 {
      var rest := ws[1..];
      JoinCons(ws[0], rest);
      assert [ws[0]] + rest == ws;
      var tail := " " + Join(rest);
      assert Join(ws) == ws[0] + tail;
      SplitTokenThen(ws[0], tail);
      assert tail[1..] == Join(rest);
      assert IsWhitespace(tail[0]) && Split(tail) == Split(tail[1..]);
      SplitJoin(rest);
    }
  }

  /** Joining then splitting counts the words: `n` tokens give `n` words back. */
  lemma WordCountOfJoin(ws: seq<string>)
    requires AllTokens(ws)
    ensures |Split(Join(ws))| == |ws|
  {
    SplitJoin(ws);
  }

  lemma {:induction false} StripWord(s: string, k: nat)
    requires k <= |s|
    requires forall i :: 0 <= i < k ==> !IsWhitespace(s[i])
    ensures Strip(s) == s[..k] + Strip(s[k..])
    decreases k
  {
    if k > 0 {
      StripWord(s[1..], k - 1);
      assert s[1..][k - 1..] == s[k..];
      assert s[..k] == [s[0]] + s[1..][..k - 1];
    }
  }

  /** Splitting loses exactly the whitespace: the tokens spell out the non-whitespace characters. */
  lemma {:induction false} SplitKeepsText(s: string)
    ensures Concat(Split(s)) == Strip(s)
    decreases |s|
  {
    if |s| > 0 {
      if IsWhitespace(s[0]) {
        SplitKeepsText(s[1..]);
      } else {
        var k := WordLen(s);
        StripWord(s, k);
        SplitKeepsText(s[k..]);
        var r := [s[..k]] + Split(s[k..]);
        assert r[1..] == Split(s[k..]);
      }
    }
  }
}

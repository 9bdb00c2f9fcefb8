/**
 * The order-two Markov chain of `src/lib.rs`: a table from bigrams to the words
 * seen after them (`MarkovChain`, `learn`, `words`), and the never-ending word
 * stream that walks it (`Words`, `next`), truncated and joined by `generate`
 * and `generate_from`.
 *
 * The random number generator is an explicit oracle: `rng(d, n)` is the index
 * below `n` that the generator answers on its `d`-th draw.
 */
module Markov {
  import opened Wrappers
  import opened Tokens

  /** Two consecutive words. */
  type Bigram = (string, string)

  /** The transition table: each bigram's successors, in the order they were learned. */
  type Table = map<Bigram, seq<string>>

  /** A random source: (draw number, bound) to an index. */
  type Rng = (nat, nat) -> nat

  /** One sliding window of three words: the bigram of the first two and the third. */
  datatype Window = Window(key: Bigram, next: string)

  /** What `Words::next` returns, and the cursor and draw count it leaves behind. */
  datatype StepResult = StepResult(word: Option<string>, state: Bigram, drawn: nat)

  /** What `rng.choose` promises: an index inside the slice it is given. */
  ghost predicate IsChooser(rng: Rng) {
    forall d: nat, n: nat :: 0 < n ==> rng(d, n) < n
  }

  /** `learn` never stores an empty successor list. */
  ghost predicate NonEmptyLists(t: Table) {
    forall k :: k in t ==> |t[k]| > 0
  }

  /** Every word stored in the table came out of `split_whitespace`. */
  ghost predicate OnlyTokens(t: Table) {
    forall k :: k in t ==> IsToken(k.0) && IsToken(k.1) && AllTokens(t[k])
  }

  ghost predicate WellFormed(t: Table) {
    NonEmptyLists(t) && OnlyTokens(t)
  }

  /** The keys of the table collected into a list: every key exactly once, in some order. */
  ghost predicate IsKeyOrder(keys: seq<Bigram>, t: Table) {
    && |keys| == |t|
    && (forall i :: 0 <= i < |keys| ==> keys[i] in t)
    && (forall k :: k in t ==> k in keys)
  }

  /** The walk needs a chooser, a key list of the table and a table that `learn` built. */
  ghost predicate CanWalk(t: Table, keys: seq<Bigram>, rng: Rng) {
    NonEmptyLists(t) && IsKeyOrder(keys, t) && IsChooser(rng)
  }

  // ---------------------------------------------------------------------------
  // Learning

  /** `words.windows(3)`, each window as its bigram and the word after it. */
  function Windows(ws: seq<string>): seq<Window> {
    if |ws| < 3 then [] else seq(|ws| - 2, i requires 0 <= i < |ws| - 2 => Window((ws[i], ws[i + 1]), ws[i + 2]))
  }

  /**
   * One more word gives one more window, at the end: the last two words before it
   * as the bigram and the new word as its third.
   */
  lemma WindowsSnoc(ws: seq<string>, x: string)
    requires |ws| >= 2
    ensures Windows(ws + [x]) == Windows(ws) + [Window((ws[|ws| - 2], ws[|ws| - 1]), x)]
  {
    var vs := ws + [x];
    var w := Window((ws[|ws| - 2], ws[|ws| - 1]), x);
    assert |Windows(vs)| == |Windows(ws) + [w]|;
    forall i | 0 <= i < |Windows(vs)|
      ensures Windows(vs)[i] == (Windows(ws) + [w])[i]
    {
      if i < |ws| - 2 {
        assert vs[i] == ws[i] && vs[i + 1] == ws[i + 1] && vs[i + 2] == ws[i + 2];
      }
    }
  }

  /** The successor list of `k`, or the empty list for a bigram that is not a key. */
  function Existing(t: Table, k: Bigram): seq<string> {
    if k in t then t[k] else []
  }

  /** Append the window's third word to its bigram's list, creating the list when the bigram is new. */
  function Push(t: Table, w: Window): Table {
    t[w.key := Existing(t, w.key) + [w.next]]
  }

  /** The table after pushing every window, first to last. */
  function LearnAll(t: Table, wins: seq<Window>): Table
    decreases |wins|
  {
    if |wins| == 0 then t else Push(LearnAll(t, wins[..|wins| - 1]), wins[|wins| - 1])
  }

  lemma LearnAllSnoc(t: Table, wins: seq<Window>, w: Window)
    ensures LearnAll(t, wins + [w]) == Push(LearnAll(t, wins), w)
  {
    assert (wins + [w])[..|wins|] == wins;
  }

  /** The table after `learn(text)`. */
  function Learned(t: Table, text: string): Table {
    LearnAll(t, Windows(Split(text)))
  }

  /** Reference definition: the third words of the windows whose bigram is `k`, in order. */
  function Followers(wins: seq<Window>, k: Bigram): seq<string> {
    if |wins| == 0 then []
    else (if wins[0].key == k then [wins[0].next] else []) + Followers(wins[1..], k)
  }

  lemma {:induction false} FollowersSnoc(wins: seq<Window>, w: Window, k: Bigram)
    ensures Followers(wins + [w], k) == Followers(wins, k) + (if w.key == k then [w.next] else [])
    decreases |wins|
  {
    if |wins| == 0 {
      assert [] + [w] == [w];
    } else {
      assert (wins + [w])[1..] == wins[1..] + [w];
      FollowersSnoc(wins[1..], w, k);
    }
  }

  /**
   * Learning appends, for every window in order, its third word to the list of its
   * bigram: the old list is kept as a prefix, and a bigram is a key afterwards exactly
   * when it was one before or some window starts with it.
   */
  lemma {:induction false} LearnAllAt(t: Table, wins: seq<Window>, k: Bigram)
    ensures k in LearnAll(t, wins) <==> k in t || |Followers(wins, k)| > 0
    ensures Existing(LearnAll(t, wins), k) == Existing(t, k) + Followers(wins, k)
    decreases |wins|
  {
    if |wins| > 0 {
      var init, w := wins[..|wins| - 1], wins[|wins| - 1];
      LearnAllAt(t, init, k);
      assert init + [w] == wins;
      FollowersSnoc(init, w, k);
      var before := LearnAll(t, init);
      assert LearnAll(t, wins) == Push(before, w);
      if k == w.key {
        assert Existing(LearnAll(t, wins), k) == Existing(before, k) + [w.next];
      } else {
        assert Existing(LearnAll(t, wins), k) == Existing(before, k);
      }
    }
  }

  /** `learn(text)` in terms of the reference definition. */
  lemma LearnedAt(t: Table, text: string, k: Bigram)
    ensures k in Learned(t, text) <==> k in t || |Followers(Windows(Split(text)), k)| > 0
    ensures Existing(Learned(t, text), k) == Existing(t, k) + Followers(Windows(Split(text)), k)
  {
    LearnAllAt(t, Windows(Split(text)), k);
  }

  /** Learning never loses a key nor a successor: the old list is a prefix of the new one. */
  lemma LearnKeepsPrefix(t: Table, text: string, k: Bigram)
    requires k in t
    ensures k in Learned(t, text)
    ensures t[k] <= Learned(t, text)[k]
  {
    LearnedAt(t, text, k);
  }

  /** A bigram that starts some window has at least one follower. */
  lemma {:induction false} FollowersOfWindow(wins: seq<Window>, i: nat)
    requires i < |wins|
    ensures |Followers(wins, wins[i].key)| > 0
    decreases i
  {
    if i > 0 && wins[0].key != wins[i].key {
      FollowersOfWindow(wins[1..], i - 1);
    }
  }

  /** Every bigram that starts a window is a key after pushing the windows. */
  lemma LearnAllHasWindow(t: Table, ws: seq<string>, i: nat)
    requires i < |ws| - 2
    ensures BigramAt(ws, i) in LearnAll(t, Windows(ws))
  {
    var wins := Windows(ws);
    assert wins[i].key == BigramAt(ws, i);
    FollowersOfWindow(wins, i);
    LearnAllAt(t, wins, BigramAt(ws, i));
  }

  /** A new key after pushing the windows is the bigram of one of them. */
  lemma LearnAllNewKey(t: Table, ws: seq<string>, k: Bigram) returns (i: nat)
    requires k in LearnAll(t, Windows(ws)) && k !in t
    ensures i < |ws| - 2 && k == BigramAt(ws, i)
  {
    var wins := Windows(ws);
    LearnAllAt(t, wins, k);
    i := FollowersWitness(wins, k);
    assert wins[i] == Window(BigramAt(ws, i), ws[i + 2]);
  }

  /**
   * The keys after pushing the windows of `ws` (what `learn` does with the words of
   * its text) are the keys before and the bigrams of `ws` that have a word after
   * them, and nothing else.
   */
  lemma LearnAllKeys(t: Table, ws: seq<string>, k: Bigram)
    ensures k in LearnAll(t, Windows(ws)) <==> k in t || exists i :: 0 <= i < |ws| - 2 && k == BigramAt(ws, i)
  {
    if k in LearnAll(t, Windows(ws)) && k !in t {
      var i := LearnAllNewKey(t, ws, k);
    }
    if exists i :: 0 <= i < |ws| - 2 && k == BigramAt(ws, i) {
      var i :| 0 <= i < |ws| - 2 && k == BigramAt(ws, i);
      LearnAllHasWindow(t, ws, i);
    }
    if k in t {
      LearnAllAt(t, Windows(ws), k);
    }
  }

  /** Fewer than three words give no window, so leave the table as it was. */
  lemma LearnShortText(t: Table, text: string)
    requires |Split(text)| < 3
    ensures Learned(t, text) == t
  {
    assert Windows(Split(text)) == [];
  }

  lemma {:induction false} FollowersNone(wins: seq<Window>, k: Bigram)
    requires forall j :: 0 <= j < |wins| ==> wins[j].key != k
    ensures Followers(wins, k) == []
    decreases |wins|
  {
    if |wins| > 0 {
      FollowersNone(wins[1..], k);
    }
  }

  lemma {:induction false} FollowersOne(wins: seq<Window>, i: nat)
    requires i < |wins|
    requires forall j :: 0 <= j < |wins| && j != i ==> wins[j].key != wins[i].key
    ensures Followers(wins, wins[i].key) == [wins[i].next]
    decreases i
  {
    if i == 0 {
      FollowersNone(wins[1..], wins[0].key);
    } else {
      FollowersOne(wins[1..], i - 1);
    }
  }

  /** The bigram of `ws` that starts at `i`. */
  function BigramAt(ws: seq<string>, i: nat): Bigram
    requires i + 1 < |ws|
  {
    (ws[i], ws[i + 1])
  }

  /** No bigram of `ws` occurs twice. */
  ghost predicate DistinctBigrams(ws: seq<string>) {
    forall i, j :: 0 <= i < j < |ws| - 1 ==> BigramAt(ws, i) != BigramAt(ws, j)
  }

  /** A window whose bigram no other window has gives that bigram exactly its one successor. */
  lemma LearnUniqueWindow(wins: seq<Window>, i: nat)
    requires i < |wins|
    requires forall j :: 0 <= j < |wins| && j != i ==> wins[j].key != wins[i].key
    ensures wins[i].key in LearnAll(map[], wins)
    ensures LearnAll(map[], wins)[wins[i].key] == [wins[i].next]
  {
    FollowersOne(wins, i);
    LearnAllAt(map[], wins, wins[i].key);
  }

  lemma DistinctWindowKeys(ws: seq<string>, i: nat)
    requires DistinctBigrams(ws) && i < |ws| - 2
    ensures forall j :: 0 <= j < |Windows(ws)| && j != i ==> Windows(ws)[j].key != Windows(ws)[i].key
  {
    var wins := Windows(ws);
    forall j | 0 <= j < |wins| && j != i
      ensures wins[j].key != wins[i].key
    {
      assert wins[j].key == BigramAt(ws, j) && wins[i].key == BigramAt(ws, i);
    }
  }

  lemma LearnDistinctAt(ws: seq<string>, i: nat)
    requires DistinctBigrams(ws) && i < |ws| - 2
    ensures (ws[i], ws[i + 1]) in LearnAll(map[], Windows(ws))
    ensures LearnAll(map[], Windows(ws))[(ws[i], ws[i + 1])] == [ws[i + 2]]
  {
    var wins := Windows(ws);
    assert wins[i] == Window((ws[i], ws[i + 1]), ws[i + 2]);
    DistinctWindowKeys(ws, i);
    LearnUniqueWindow(wins, i);
  }

  /** A bigram that has followers is the bigram of some window. */
  lemma {:induction false} FollowersWitness(wins: seq<Window>, k: Bigram) returns (j: nat)
    requires |Followers(wins, k)| > 0
    ensures j < |wins| && wins[j].key == k
    decreases |wins|
  {
    if wins[0].key == k {
      j := 0;
    } else {
      var j' := FollowersWitness(wins[1..], k);
      j := j' + 1;
    }
  }

  lemma LearnDistinctKey(ws: seq<string>, k: Bigram)
    requires k in LearnAll(map[], Windows(ws))
    ensures exists i :: 0 <= i < |ws| - 2 && k == (ws[i], ws[i + 1])
  {
    var wins := Windows(ws);
    LearnAllAt(map[], wins, k);
    var j := FollowersWitness(wins, k);
    assert wins[j] == Window((ws[j], ws[j + 1]), ws[j + 2]);
  }

  /**
   * A text in which every bigram occurs once, such as the traditional lorem ipsum
   * passage, teaches each of its bigrams exactly the one word that follows it, and
   * nothing else: its keys are its bigrams that have a word after them.
   */
  lemma LearnDistinct(ws: seq<string>)
    requires DistinctBigrams(ws)
    ensures forall i :: 0 <= i < |ws| - 2 ==>
      (ws[i], ws[i + 1]) in LearnAll(map[], Windows(ws)) && LearnAll(map[], Windows(ws))[(ws[i], ws[i + 1])] == [ws[i + 2]]
    ensures forall k :: k in LearnAll(map[], Windows(ws)) ==> exists i :: 0 <= i < |ws| - 2 && k == (ws[i], ws[i + 1])
  {
    forall i | 0 <= i < |ws| - 2
      ensures (ws[i], ws[i + 1]) in LearnAll(map[], Windows(ws))
      ensures LearnAll(map[], Windows(ws))[(ws[i], ws[i + 1])] == [ws[i + 2]]
    {
      LearnDistinctAt(ws, i);
    }
    forall k | k in LearnAll(map[], Windows(ws))
      ensures exists i :: 0 <= i < |ws| - 2 && k == (ws[i], ws[i + 1])
    {
      LearnDistinctKey(ws, k);
    }
  }

  ghost predicate WindowOfTokens(w: Window) {
    IsToken(w.key.0) && IsToken(w.key.1) && IsToken(w.next)
  }

  /** Pushing windows of tokens keeps every list non-empty and every stored word a token. */
  lemma {:induction false} LearnAllWellFormed(t: Table, wins: seq<Window>)
    requires WellFormed(t)
    requires forall i :: 0 <= i < |wins| ==> WindowOfTokens(wins[i])
    ensures WellFormed(LearnAll(t, wins))
    decreases |wins|
  {
    if |wins| > 0 {
      var init, w := wins[..|wins| - 1], wins[|wins| - 1];
      LearnAllWellFormed(t, init);
      var before := LearnAll(t, init);
      var after := Push(before, w);
      forall k | k in after
        ensures |after[k]| > 0 && IsToken(k.0) && IsToken(k.1) && AllTokens(after[k])
      {
        if k == w.key {
          assert after[k] == Existing(before, k) + [w.next];
        }
      }
    }
  }

  /** The invariant that `learn` preserves. */
  lemma LearnedWellFormed(t: Table, text: string)
    requires WellFormed(t)
    ensures WellFormed(Learned(t, text))
  {
    var ws := Split(text);
    LearnAllWellFormed(t, Windows(ws));
  }

  // ---------------------------------------------------------------------------
  // Walking the chain

  /**
   * The recovery loop of `next`: a bigram that is a key stays; any other is
   * replaced, with one draw, by an element of `keys`, which is then a key.
   */
  ghost function Recover(t: Table, keys: seq<Bigram>, rng: Rng, s: Bigram, d: nat): (r: (Bigram, nat))
    requires CanWalk(t, keys, rng) && |t| > 0
    ensures r.0 in t
    ensures s in t ==> r == (s, d)
    ensures s !in t ==> r.0 in keys && r.1 == d + 1
  {
    if s in t then (s, d) else (keys[rng(d, |keys|)], d + 1)
  }

  /**
   * `Words::next`: nothing on an empty table, which leaves the cursor alone; otherwise
   * the first word of the cursor as it was, and the cursor moves to the second word of
   * the recovered bigram and one of that bigram's successors.
   */
  ghost function Step(t: Table, keys: seq<Bigram>, rng: Rng, s: Bigram, d: nat): (r: StepResult)
    requires CanWalk(t, keys, rng)
    ensures r.word.None? <==> |t| == 0
    ensures |t| == 0 ==> r.state == s && r.drawn == d
    ensures |t| > 0 ==> r.word == Some(s.0)
    ensures |t| > 0 ==> var (k, d') := Recover(t, keys, rng, s, d);
      r.state.0 == k.1 && r.state.1 in t[k] && r.drawn == d' + 1
  {
    if |t| == 0 then StepResult(None, s, d)
    else
      var (k, d') := Recover(t, keys, rng, s, d);
      var succ := t[k];
      StepResult(Some(s.0), (k.1, succ[rng(d', |succ|)]), d' + 1)
  }

  /** From a key with a single successor, the step does not depend on the random source. */
  lemma StepSingleSuccessor(t: Table, keys: seq<Bigram>, rng: Rng, s: Bigram, d: nat)
    requires CanWalk(t, keys, rng)
    requires s in t && |t[s]| == 1
    ensures Step(t, keys, rng, s, d).word == Some(s.0)
    ensures Step(t, keys, rng, s, d).state == (s.1, t[s][0])
  {
  }

  /**
   * Along a stretch of `ws` whose bigrams each have the single successor that
   * `ws` itself gives them, `n` words of the stream reproduce `ws` from `i` on,
   * whatever the random source answers.
   */
  lemma {:induction false} TakeAlongPath(t: Table, keys: seq<Bigram>, rng: Rng, ws: seq<string>, i: nat, d: nat, n: nat)
    requires CanWalk(t, keys, rng) && |t| > 0
    requires i + 1 < |ws| && i + n < |ws|
    requires forall j :: i <= j < i + n - 1 ==> (ws[j], ws[j + 1]) in t && t[(ws[j], ws[j + 1])] == [ws[j + 2]]
    ensures Take(t, keys, rng, (ws[i], ws[i + 1]), d, n) == ws[i..i + n]
    decreases n
  {
    if n == 1 {
      assert ws[i..i + 1] == [ws[i]];
    } else if n > 1 {
      var s := (ws[i], ws[i + 1]);
      assert s in t && t[s] == [ws[i + 2]];
      StepSingleSuccessor(t, keys, rng, s, d);
      var st := Step(t, keys, rng, s, d);
      TakeAlongPath(t, keys, rng, ws, i + 1, st.drawn, n - 1);
      assert ws[i..i + n] == [ws[i]] + ws[i + 1..i + n];
    }
  }

  /**
   * A text in which no bigram occurs twice is walked back exactly: `n` words of the
   * stream from one of its bigrams are the `n` words of the text from there on.
   */
  lemma WalkDistinct(text: string, ws: seq<string>, keys: seq<Bigram>, rng: Rng, i: nat, n: nat)
    requires Split(text) == ws && DistinctBigrams(ws)
    requires CanWalk(Learned(map[], text), keys, rng)
    requires i + 2 < |ws| && i + n < |ws|
    ensures Take(Learned(map[], text), keys, rng, (ws[i], ws[i + 1]), 0, n) == ws[i..i + n]
  {
    WalkDistinctTable(Learned(map[], text), ws, keys, rng, i, n);
  }

  lemma WalkDistinctTable(t: Table, ws: seq<string>, keys: seq<Bigram>, rng: Rng, i: nat, n: nat)
    requires t == LearnAll(map[], Windows(ws)) && DistinctBigrams(ws)
    requires CanWalk(t, keys, rng)
    requires i + 2 < |ws| && i + n < |ws|
    ensures Take(t, keys, rng, (ws[i], ws[i + 1]), 0, n) == ws[i..i + n]
  {
    LearnDistinctAt(ws, i);
    forall j | i <= j < i + n - 1
      ensures (ws[j], ws[j + 1]) in t && t[(ws[j], ws[j + 1])] == [ws[j + 2]]
    {
      LearnDistinctAt(ws, j);
    }
    TakeAlongPath(t, keys, rng, ws, i, 0, n);
  }

  /** `take(n)` on the word stream: the words of up to `n` calls of `next`, until one gives nothing. */
  ghost function Take(t: Table, keys: seq<Bigram>, rng: Rng, s: Bigram, d: nat, n: nat): (r: seq<string>)
    requires CanWalk(t, keys, rng)
    ensures |t| == 0 ==> r == []
    ensures |t| > 0 ==> |r| == n
    ensures |t| > 0 && n > 0 ==> r[0] == s.0
    decreases n
  {
    if n == 0 then []
    else
      var st := Step(t, keys, rng, s, d);
      match st.word
      case None => []
      case Some(w) => [w] + Take(t, keys, rng, st.state, st.drawn, n - 1)
  }

  /** The cursor and draw count that `n` calls of `next` leave behind. */
  ghost function TakeEnd(t: Table, keys: seq<Bigram>, rng: Rng, s: Bigram, d: nat, n: nat): (r: (Bigram, nat))
    requires CanWalk(t, keys, rng)
    ensures |t| == 0 ==> r == (s, d)
    ensures |t| > 0 ==> r.1 >= d + n
    decreases n
  {
    if n == 0 then (s, d)
    else
      var st := Step(t, keys, rng, s, d);
      TakeEnd(t, keys, rng, st.state, st.drawn, n - 1)
  }

  /**
   * A stream that is kept after `take(m)` goes on where it stopped: `m + n` words are
   * the first `m` words followed by `n` words from the cursor and count `take(m)` left.
   */
  lemma {:induction false} TakeResume(t: Table, keys: seq<Bigram>, rng: Rng, s: Bigram, d: nat, m: nat, n: nat)
    requires CanWalk(t, keys, rng)
    ensures var (s', d') := TakeEnd(t, keys, rng, s, d, m);
      Take(t, keys, rng, s, d, m + n) == Take(t, keys, rng, s, d, m) + Take(t, keys, rng, s', d', n)
    decreases m
  {
    if |t| > 0 && m > 0 {
      var st := Step(t, keys, rng, s, d);
      TakeResume(t, keys, rng, st.state, st.drawn, m - 1, n);
      assert m + n - 1 == (m - 1) + n;
    }
  }

  /** From a bigram that is a key, the stream starts with both of its words. */
  lemma TakeFromKey(t: Table, keys: seq<Bigram>, rng: Rng, s: Bigram, d: nat, n: nat)
    requires CanWalk(t, keys, rng)
    requires s in t && n >= 2
    ensures Take(t, keys, rng, s, d, n)[..2] == [s.0, s.1]
  {
    var st := Step(t, keys, rng, s, d);
    assert Take(t, keys, rng, s, d, n)[1] == Take(t, keys, rng, st.state, st.drawn, n - 1)[0];
  }

  /** Every word after the first comes from the table; with a token to start from, all are tokens. */
  lemma {:induction false} TakeTokens(t: Table, keys: seq<Bigram>, rng: Rng, s: Bigram, d: nat, n: nat)
    requires CanWalk(t, keys, rng) && OnlyTokens(t)
    requires IsToken(s.0)
    ensures AllTokens(Take(t, keys, rng, s, d, n))
    decreases n
  {
    if n > 0 && |t| > 0 {
      var st := Step(t, keys, rng, s, d);
      var k := Recover(t, keys, rng, s, d).0;
      assert IsToken(st.state.0) by { assert st.state.0 == k.1 && k in t; }
      TakeTokens(t, keys, rng, st.state, st.drawn, n - 1);
      var r := Take(t, keys, rng, s, d, n);
      assert r == [s.0] + Take(t, keys, rng, st.state, st.drawn, n - 1);
    }
  }

  /**
   * `generate_from(n, s)` on a table that `learn` built gives exactly `n`
   * whitespace-separated words when `s` starts with a word, and begins with that word.
   */
  lemma GeneratedWords(t: Table, keys: seq<Bigram>, rng: Rng, s: Bigram, d: nat, n: nat)
    requires CanWalk(t, keys, rng) && OnlyTokens(t) && |t| > 0
    requires IsToken(s.0)
    ensures |Split(Join(Take(t, keys, rng, s, d, n)))| == n
    ensures n > 0 ==> s.0 <= Join(Take(t, keys, rng, s, d, n))
  {
    var r := Take(t, keys, rng, s, d, n);
    TakeTokens(t, keys, rng, s, d, n);
    WordCountOfJoin(r);
    if n > 0 {
      JoinStartsWith(r);
    }
  }

  /** From a bigram that is a key, generated text starts with its two words and a space between. */
  lemma GeneratedFromKey(t: Table, keys: seq<Bigram>, rng: Rng, s: Bigram, d: nat, n: nat)
    requires CanWalk(t, keys, rng)
    requires s in t && n >= 2
    ensures s.0 + " " + s.1 <= Join(Take(t, keys, rng, s, d, n))
  {
    var r := Take(t, keys, rng, s, d, n);
    TakeFromKey(t, keys, rng, s, d, n);
    assert r[0] == s.0 && r[1] == s.1;
    JoinCons(r[0], r[1..]);
    assert [r[0]] + r[1..] == r;
    JoinStartsWith(r[1..]);
  }

  /** `iter`'s starting bigram: a random key, or ("", "") for an empty table. */
  ghost function RandomStart(keys: seq<Bigram>, rng: Rng): (r: (Bigram, nat))
    requires IsChooser(rng)
    ensures |keys| == 0 ==> r == (("", ""), 0)
    ensures |keys| > 0 ==> r.0 in keys && r.1 == 1
  {
    if |keys| == 0 then (("", ""), 0) else (keys[rng(0, |keys|)], 1)
  }

  // ---------------------------------------------------------------------------
  // The chain and its word stream

  /** Collect the keys of the table into a list, in an order the model leaves open. */
  method CollectKeys(t: Table) returns (keys: seq<Bigram>)
    ensures IsKeyOrder(keys, t)
  {
    keys := [];
    var rest := t.Keys;
    while rest != {}
      invariant rest <= t.Keys
      invariant |keys| + |rest| == |t|
      invariant forall i :: 0 <= i < |keys| ==> keys[i] in t && keys[i] !in rest
      invariant forall k :: k in t ==> k in rest || k in keys
      decreases |rest|
    {
      var k :| k in rest;
      keys := keys + [k];
      rest := rest - {k};
    }
  }

  class MarkovChain {
    /** The field `map` of the source. */
    var table: Table

    ghost predicate Valid()
      reads this
    {
      WellFormed(table)
    }

    /** `MarkovChain::new`: an empty table. */
    constructor ()
      ensures Valid() && table == map[]
    {
      table := map[];
    }

    /** `learn`: push every window of the text's words into the table, first to last. */
    method Learn(sentence: string)
      requires Valid()
      modifies this
      ensures Valid()
      ensures table == Learned(old(table), sentence)
      ensures |Split(sentence)| < 3 ==> table == old(table)
    {
      ghost var t0 := table;
      var words := Split(sentence);
      ghost var wins := Windows(words);
      var i := 0;
      while i + 3 <= |words|
        invariant i <= |wins|
        invariant table == LearnAll(t0, wins[..i])
      {
        var (a, b, c) := (words[i], words[i + 1], words[i + 2]);
        assert wins[..i + 1][..i] == wins[..i];
        table := Push(table, Window((a, b), c));
        i := i + 1;
      }
      assert wins[..i] == wins;
      LearnedWellFormed(t0, sentence);
    }

    /** `words`: the successors of `state`, or nothing when it is not a key. */
    function Words(state: Bigram): (r: Option<seq<string>>)
      reads this
      ensures r.Some? <==> state in table
      ensures r.Some? ==> r.value == table[state]
    {
      if state in table then Some(table[state]) else None
    }

    /** `iter_from`: a stream over this table whose cursor starts at `from`. */
    method IterFrom(from: Bigram, rng: Rng) returns (w: Words)
      requires Valid() && IsChooser(rng)
      ensures fresh(w) && w.Valid()
      ensures w.table == table && w.rng == rng && w.state == from && w.drawn == 0
    {
      var keys := CollectKeys(table);
      w := new Words(table, keys, rng, from, 0);
    }

    /** `iter`: a stream over this table starting at a random key, or at ("", "") when there is none. */
    method Iter(rng: Rng) returns (w: Words)
      requires Valid() && IsChooser(rng)
      ensures fresh(w) && w.Valid()
      ensures w.table == table && w.rng == rng
      ensures (w.state, w.drawn) == RandomStart(w.keys, rng)
    {
      var keys := CollectKeys(table);
      var state: Bigram;
      var drawn: nat;
      if |keys| == 0 {
        state, drawn := ("", ""), 0;
      } else {
        state, drawn := keys[rng(0, |keys|)], 1;
      }
      w := new Words(table, keys, rng, state, drawn);
    }

    /** `generate_from(n, from)`: `n` words of the stream from `from`, joined by spaces. */
    method GenerateFrom(n: nat, from: Bigram, rng: Rng) returns (s: string, ghost keys: seq<Bigram>)
      requires Valid() && IsChooser(rng)
      ensures IsKeyOrder(keys, table)
      ensures s == Join(Take(table, keys, rng, from, 0, n))
      ensures |table| == 0 ==> s == ""
      ensures |table| > 0 && IsToken(from.0) ==> |Split(s)| == n
      ensures |table| > 0 && n > 0 ==> from.0 <= s
    {
      var it := IterFrom(from, rng);
      keys := it.keys;
      var words := it.TakeN(n);
      s := JoinWords(words);
      if |table| > 0 && n > 0 {
        JoinStartsWith(words);
      }
      if |table| > 0 && IsToken(from.0) {
        GeneratedWords(table, keys, rng, from, 0, n);
      }
    }

    /** `generate(n)`: `n` words of the stream from a random key, joined by spaces. */
    method Generate(n: nat, rng: Rng) returns (s: string, ghost keys: seq<Bigram>)
      requires Valid() && IsChooser(rng)
      ensures IsKeyOrder(keys, table)
      ensures var (start, d) := RandomStart(keys, rng); s == Join(Take(table, keys, rng, start, d, n))
      ensures |table| == 0 ==> s == ""
      ensures |table| > 0 ==> |Split(s)| == n
    {
      var it := Iter(rng);
      keys := it.keys;
      ghost var start, d := it.state, it.drawn;
      var words := it.TakeN(n);
      s := JoinWords(words);
      if |table| > 0 {
        assert start in table;
        GeneratedWords(table, keys, rng, start, d, n);
      }
    }
  }

  /** The struct `Words`: the table, its keys and the cursor bigram, plus the random source. */
  class Words {
    const table: Table
    const keys: seq<Bigram>
    const rng: Rng
    var state: Bigram
    /** How many draws the random source has answered so far. */
    var drawn: nat

    ghost predicate Valid()
      reads this
    {
      CanWalk(table, keys, rng) && OnlyTokens(table)
    }

    constructor (table: Table, keys: seq<Bigram>, rng: Rng, state: Bigram, drawn: nat)
      requires WellFormed(table) && IsKeyOrder(keys, table) && IsChooser(rng)
      ensures Valid()
      ensures this.table == table && this.keys == keys && this.rng == rng
      ensures this.state == state && this.drawn == drawn
    {
      this.table, this.keys, this.rng := table, keys, rng;
      this.state, this.drawn := state, drawn;
    }

    /** `Words::next`. The recovery loop runs at most once: every element of `keys` is a key. */
    method Next() returns (r: Option<string>)
      requires Valid()
      modifies this
      ensures Valid()
      ensures StepResult(r, state, drawn) == Step(table, keys, rng, old(state), old(drawn))
    {
      if |table| == 0 {
        return None;
      }
      r := Some(state.0);
      while state !in table
        invariant state !in table ==> state == old(state) && drawn == old(drawn)
        invariant state in table ==> (state, drawn) == Recover(table, keys, rng, old(state), old(drawn))
        decreases if state in table then 0 else 1
      {
        state := keys[rng(drawn, |keys|)];
        drawn := drawn + 1;
      }
      var nextWords := table[state];
      var next := nextWords[rng(drawn, |nextWords|)];
      state := (state.1, next);
      drawn := drawn + 1;
    }

    /** `take(n)`: call `next` up to `n` times and keep the words, stopping at the first nothing. */
    method TakeN(n: nat) returns (words: seq<string>)
      requires Valid()
      modifies this
      ensures Valid()
      ensures words == Take(table, keys, rng, old(state), old(drawn), n)
      ensures (state, drawn) == TakeEnd(table, keys, rng, old(state), old(drawn), n)
    {
      words := [];
      var i := 0;
      while i < n
        invariant i <= n
        invariant words + Take(table, keys, rng, state, drawn, n - i) == Take(table, keys, rng, old(state), old(drawn), n)
        invariant TakeEnd(table, keys, rng, state, drawn, n - i) == TakeEnd(table, keys, rng, old(state), old(drawn), n)
      {
        var w := Next();
        if w.None? {
          break;
        }
        words := words + [w.value];
        i := i + 1;
      }
    }
  }
}

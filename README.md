# lipsum: an order-two Markov chain, modelled in Dafny

`src/lib.rs` generates lorem ipsum filler text with a Markov chain of order two.

- **Learning.** A `MarkovChain` keeps a table from each *bigram* (two consecutive
  words) to the list of words seen right after it. `learn(text)` splits the text on
  whitespace and, for every window of three consecutive words `(a, b, c)`, appends
  `c` to the list of `(a, b)`.
- **Walking.** `Words` is a never-ending stream over that table. Each `next` yields
  the first word of the current bigram. When the current bigram is not a key, it
  first jumps to a random key. It then moves on to the bigram's second word and a
  random successor.
- **Generating.** `generate` and `generate_from` take `n` words of the stream, from
  a random key or from a given bigram, and join them with single spaces.
- **`lipsum(n)`.** This runs `generate_from(n, ("Lorem", "ipsum"))` on a global
  chain that has learned the lorem ipsum passage and the first book of Cicero's
  *De finibus*.

The model has four modules:

- `Tokens` (`tokens.dfy`): `split_whitespace` as `Split` and `join_words` as
  `Join` and the loop `JoinWords`, with the round trip between them.
- `Markov` (`markov.dfy`):
  - the table and the functional meaning of `learn`: `Learned`, and the
    reference definition `Followers`;
  - the walk: `Recover`, `Step` and `Take`;
  - the class `MarkovChain`, with field `table` holding the source's `map`;
  - the class `Words`, whose methods `Next` and `TakeN` are the loops of the
    source, proved against `Step` and `Take`.
- `DocTests` (`doctests.dfy`): the doc-tests and unit tests of the file, as lemmas
  and client methods. They hold for every random source and every key order.
- `Lipsum` (`lipsum.dfy`): the global chain and `lipsum(n)`, with the two corpus
  texts as parameters.

Randomness is an explicit oracle `rng(d, n)`: the index below `n` that the
generator answers on its `d`-th draw. `IsChooser(rng)` is all that is assumed of
it, which is what `choose` promises. The stream counts its draws in `drawn`.
`HashMap` key order is left open. `keys` is any sequence holding each key once
(`IsKeyOrder`), built by `CollectKeys` with an arbitrary choice at each step.

Learned tables satisfy `WellFormed`: every list is non-empty, and every stored
word is a whitespace-free token. `learn` preserves this. Non-empty lists are what
make the successor draw in `next` safe: choosing from a bigram's list always finds
a word. The recovery loop in `next` runs at most once for a different reason:
every element of `keys` is a key (`IsKeyOrder`), so one draw always lands on one.
`Next` proves this with a loop measure of `if state in table then 0 else 1`.

## Model

| member | source | states |
|---|---|---|
| Tokens.Split | src/lib.rs:83 | every word `split_whitespace` yields is non-empty and free of whitespace |
| Tokens.SplitKeepsText | src/lib.rs:83 | splitting loses exactly the whitespace: the words concatenated are the text's non-whitespace characters, in order |
| Tokens.JoinWords | src/lib.rs:193-205 | the loop of `join_words` (the first word, then a space and the next word per step) computes the space-join, `""` for no words |
| Tokens.JoinStartsWith | src/lib.rs:194-197 | the joined text begins with the first word |
| Tokens.JoinLength | src/lib.rs:196-202 | the joined text is as long as the words together plus one space between each pair |
| Tokens.JoinAppend | src/lib.rs:198-201 | joining two non-empty runs of words puts exactly one space between their joins |
| Tokens.SplitJoin | src/lib.rs:193-205 | splitting the join of whitespace-free non-empty words gives back exactly those words |
| Tokens.WordCountOfJoin | src/lib.rs:256-269 | `n` such words joined split into exactly `n` words |
| Markov.WindowsSnoc | src/lib.rs:84-85 | `windows(3)` grows at the end: one more word adds exactly one window, the last two old words as bigram and the new word as third, and keeps the earlier windows |
| Markov.LearnAllAt | src/lib.rs:84-86 | after pushing the windows, a bigram is a key exactly when it was one or some window starts with it, and its list is the old list followed by the third words of those windows in order |
| Markov.LearnedAt | src/lib.rs:82-88 | the same for `learn(text)`, in terms of the reference definition `Followers` |
| Markov.LearnKeepsPrefix | src/lib.rs:76-80 | learning keeps every key, and the old successor list is a prefix of the new one |
| Markov.LearnAllKeys | src/lib.rs:84-86 | the keys after pushing the windows of a word list are the old keys and the bigrams of the list that have a word after them, and no others |
| Markov.LearnAllHasWindow | src/lib.rs:86 | every bigram that starts a window is a key afterwards |
| Markov.LearnAllNewKey | src/lib.rs:86 | a key that was not there before is the bigram of some window |
| Markov.LearnShortText | src/lib.rs:83-84 | a text of fewer than three words leaves the table unchanged |
| Markov.LearnDistinct | src/lib.rs:207-213 | a text in which no bigram repeats teaches each of its bigrams exactly its one following word, and has no other keys |
| Markov.LearnDistinctAt | src/lib.rs:207-213 | one such bigram is a key whose list is the single word after it |
| Markov.LearnedWellFormed | src/lib.rs:83-86 | learning keeps every list non-empty and every stored word a token |
| Markov.Recover | src/lib.rs:183-185 | the recovery loop ends on a key: an old state that is a key stays, with no draw; any other becomes an element of `keys`, after exactly one draw |
| Markov.Step | src/lib.rs:175-190 | `next`: nothing and no change on an empty table; otherwise the old state's first word, and a new state made of the recovered bigram's second word and one of its successors |
| Markov.StepSingleSuccessor | src/lib.rs:186-188 | from a key with a single successor, the step is the same whatever the random source answers |
| Markov.Take | src/lib.rs:132 | `take(n)`: no words on an empty table, else exactly `n` words, the first being the start bigram's first word |
| Markov.TakeFromKey | src/lib.rs:180-188 | from a key, the stream starts with both words of that key |
| Markov.TakeTokens | src/lib.rs:175-190 | on a learned table, from a token, every word of the stream is a token |
| Markov.TakeAlongPath | src/lib.rs:186-188 | along a stretch of words whose bigrams each have that stretch's next word as their single successor, the stream reproduces the stretch |
| Markov.WalkDistinct | src/lib.rs:209-212 | after learning a text without repeated bigrams, the walk from one of its bigrams reproduces the text from there on |
| Markov.WalkDistinctTable | src/lib.rs:209-212 | the same for the table built from the word list |
| Markov.GeneratedWords | src/lib.rs:141-143 | on a non-empty learned table, from a token, the generated text splits into exactly `n` words and begins with the start word |
| Markov.GeneratedFromKey | src/lib.rs:141-143 | from a key and `n >= 2`, the generated text begins with the key's two words and a space between them |
| Markov.RandomStart | src/lib.rs:149-154 | `iter`'s start: ("", "") with no draw when there are no keys, else an element of `keys` after one draw |
| Markov.CollectKeys | src/lib.rs:148 | `keys().collect()` lists every key of the table exactly once |
| Markov.MarkovChain.constructor | src/lib.rs:63-65 | a new chain has an empty table |
| Markov.MarkovChain.Learn | src/lib.rs:82-88 | the loop over the windows leaves the table that `Learned` describes, unchanged for fewer than three words, and keeps it well formed |
| Markov.MarkovChain.Words | src/lib.rs:103-105 | `words(s)` is `Some` exactly when `s` is a key, with that key's list; it reads the chain and changes nothing |
| Markov.MarkovChain.IterFrom | src/lib.rs:160-163 | a fresh, well-formed stream over this table that starts at `from` |
| Markov.MarkovChain.Iter | src/lib.rs:147-156 | a fresh, well-formed stream over this table that starts where `RandomStart` says |
| Markov.MarkovChain.GenerateFrom | src/lib.rs:141-143 | the join of `n` stream words from `from`: `""` on an empty table; otherwise `n` words (when `from.0` is a token) beginning with `from.0` |
| Markov.MarkovChain.Generate | src/lib.rs:131-133 | the join of `n` stream words from the random start: `""` on an empty table, else exactly `n` words |
| Markov.Words.constructor | src/lib.rs:166-170 | a stream holding the table, its key list and the cursor it is given |
| Markov.Words.Next | src/lib.rs:175-190 | the method, with its recovery loop, returns and leaves exactly what `Step` says |
| Markov.Words.TakeN | src/lib.rs:142 | calling `next` up to `n` times, stopping at the first nothing, yields exactly `Take` and leaves the cursor and draw count `TakeEnd` gives; the stream stays valid |
| Markov.TakeEnd | src/lib.rs:175-190 | the cursor and draw count after `n` calls of `next`: unchanged on an empty table, else at least `n` more draws |
| Markov.TakeResume | src/lib.rs:175-190 | a stream kept after `take(m)` continues where it stopped: `m + n` words are the first `m` followed by `n` from the cursor `TakeEnd` gives |
| DocTests.LearnThree | src/lib.rs:84-86 | a text of three words gives a table of exactly one key, with the third word as its only successor |
| DocTests.LearnFour | src/lib.rs:84-86 | a text of four words with two different bigrams gives exactly those two keys, each with one successor |
| DocTests.LearnOnTop | src/lib.rs:86 | a three-word text learned on top of a table appends its third word to its bigram's list and changes nothing else |
| DocTests.LearnSameBigram | src/lib.rs:76-80 | two three-word texts with the same bigram: that bigram's list is the first text's third word, then the second's |
| DocTests.LearnTwice | src/lib.rs:72-81 | learning "red green blue" then "red green yellow" maps ("red", "green") to ["blue", "yellow"] |
| DocTests.WordsOfThree | src/lib.rs:103-105 | after a three-word text, `words` of its bigram is its third word and `words` of any other bigram is nothing |
| DocTests.WordsAfterLearn | src/lib.rs:95-102 | after "red green blue", `words(("red", "green"))` is ["blue"] and `words(("foo", "bar"))` is nothing |
| DocTests.ChainMap | src/lib.rs:309-317 | learning "foo bar baz quuz" gives exactly two keys, ("foo", "bar") to ["baz"] and ("bar", "baz") to ["quuz"] |
| DocTests.EmptyChain | src/lib.rs:271-275 | a fresh chain generates "" for every count and every random source |
| DocTests.WalkDistinctJoin | src/lib.rs:209-212 | the text generated along a stretch of a text without repeated bigrams is that stretch joined |
| DocTests.GenerateFromRainbow | src/lib.rs:278-283 | after the rainbow text, five words from ("orange", "yellow") are "orange yellow green blue indigo", whatever the random source and key order |
| DocTests.GenerateFromTest | src/lib.rs:278-283 | the same through `MarkovChain`'s methods |
| DocTests.RecoverSingleKey | src/lib.rs:183-185 | in a table of one key, recovery always lands on that key |
| DocTests.WalkOneKey | src/lib.rs:180-188 | three words from any bigram over the table {(a, b): [c]} are the start word, then b, then b again |
| DocTests.WalkThreeWords | src/lib.rs:180-188 | the same for the table learned from a three-word text |
| DocTests.GenerateLastBigram | src/lib.rs:286-297 | after "xxx yyy zzz", three words from ("xxx", "yyy") are "xxx yyy yyy", so they are not "xxx yyy zzz" |
| DocTests.GenerateFromUnknown | src/lib.rs:299-306 | after "foo bar baz", three words from the unknown ("xxx", "yyy") are "xxx bar bar": the walk recovers instead of failing |
| Lipsum.LoremIpsumChain | src/lib.rs:226-234 | the global chain is a fresh, well-formed chain that has learned the lorem ipsum passage and then the first book |
| Lipsum.LoremIpsumIsKey | src/lib.rs:236-239 | when the passage opens with "Lorem ipsum" and another word, ("Lorem", "ipsum") is a key of the global chain |
| Lipsum.Lipsum | src/lib.rs:242-244 | `n` words of the global chain from ("Lorem", "ipsum"); with such a passage, exactly `n` words, and from `n >= 2` the text begins with "Lorem ipsum" (the tests at src/lib.rs:251-269) |

## Left out

- Randomness. `rand::thread_rng` and `choose` become the oracle `rng` with only
  the bound `choose` promises. The distribution is not modelled, nor is the
  weighting that repeated successors give, nor is any statement that two calls
  give different text.
- The corpus files. `LOREM_IPSUM` and `LIBER_PRIMUS` are `include_str!` data
  outside the library, so `Lipsum` takes them as parameters. That the passage
  opens with "Lorem ipsum" is a premise, `OpensWithLoremIpsum`, not a checked
  fact about the real file.
- Lazy initialisation. `lazy_static!` builds the global chain once. `Lipsum`
  builds it on each call instead, which gives the same table.
- Key order. `HashMap` iteration order is not modelled: every statement holds for
  every order of `keys`.
- Lifetimes. Borrowed `&str` views and lifetimes become plain string values. The
  `Words` stream holds a copy of the table; the source borrows it, but the table
  cannot change while the stream lives, so the two are the same.
- Whitespace. `char::is_whitespace` is written out as the fixed list of Unicode
  White_Space characters, with no other Unicode handling.
- Laziness of `take(n)`. `generate` and `generate_from` feed a lazy `take(n)` into
  `join_words`. The model collects the words first (`TakeN`), then joins them
  (`JoinWords`). The text is the same.
- The grandfather-clock example of `generate` (src/lib.rs:117-128) only prints
  random output, so it has nothing to check.
- examples/lipsum.rs is command-line parsing and printing, and is not part of this
  model.
- Field name. The Rust field `map` is called `table`, because `map` is a Dafny
  keyword.
- Sentence formatting. Capitalisation after sentence punctuation, a closing full
  stop, RNG-parameterised entry points and a title generator belong to later
  versions of the library. This version of `src/lib.rs` only space-joins the
  words, and the model follows the code.

/** The published test vector of SHA-256 for "abc" (FIPS 180-4; tests/core_tests.cpp): the definitions of
    Sha256Spec, constants and all, give its digest.  Words and working variables are written out step by
    step. */
module Sha256Vector {
  import opened Bytes
  import opened Sha256Spec
  import opened Sha256Stream

  /** w continues its first sixteen words by the message schedule. */
  ghost predicate Scheduled(w: seq<Word>) {
    forall t: nat :: 16 <= t < 64 ==> ScheduledAt(w, t)
  }

  ghost predicate ScheduledAt(w: seq<Word>, t: nat) {
    16 <= t < |w| && w[t] == Mix(w[t - 2], w[t - 7], w[t - 15], w[t - 16])
  }

  /** v are the working variables over the rounds with these words. */
  ghost predicate Worked(v: seq<Working>, w: seq<Word>) {
    forall t: nat :: t < 64 ==> WorkedAt(v, w, t)
  }

  ghost predicate WorkedAt(v: seq<Working>, w: seq<Word>, t: nat) {
    t < 64 && t < |w| && t + 1 < |v| && v[t + 1] == Round(v[t], ROUND_CONSTANTS[t], w[t])
  }

  /** A word as a value of its own, which keeps its bits out of the argument. */
  datatype Value = Value(word: Word)

  ghost predicate IsWord(w: seq<Word>, t: nat, x: Value) {
    t < |w| && w[t] == x.word
  }

  ghost predicate EightWords(w: seq<Word>, t: nat, a: Value, b: Value, c: Value, d: Value, e: Value, f: Value, g: Value, h: Value) {
    && IsWord(w, t, a) && IsWord(w, t + 1, b) && IsWord(w, t + 2, c) && IsWord(w, t + 3, d)
    && IsWord(w, t + 4, e) && IsWord(w, t + 5, f) && IsWord(w, t + 6, g) && IsWord(w, t + 7, h)
  }

  ghost predicate IsState(v: seq<Working>, t: nat, x: Working) {
    t < |v| && v[t] == x
  }

  ghost predicate MixGives(w2: Value, w7: Value, w15: Value, w16: Value, next: Value) {
    Mix(w2.word, w7.word, w15.word, w16.word) == next.word
  }

  ghost predicate RoundGives(t: nat, before: Working, x: Value, after: Working) {
    t < 64 && Round(before, ROUND_CONSTANTS[t], x.word) == after
  }

  lemma OneWord(w: seq<Word>, t: nat, i2: nat, i7: nat, i15: nat, i16: nat, w2: Value, w7: Value, w15: Value, w16: Value, next: Value)
    requires Scheduled(w) && 16 <= t < 64 && i2 == t - 2 && i7 == t - 7 && i15 == t - 15 && i16 == t - 16
    requires IsWord(w, i2, w2) && IsWord(w, i7, w7) && IsWord(w, i15, w15) && IsWord(w, i16, w16)
    requires MixGives(w2, w7, w15, w16, next)
    ensures IsWord(w, t, next)
  {
    hide Mix;
    assert ScheduledAt(w, t);
  }

  lemma OneRound(v: seq<Working>, w: seq<Word>, t: nat, x: Value, before: Working, after: Working)
    requires Worked(v, w) && IsState(v, t, before) && IsWord(w, t, x) && RoundGives(t, before, x, after)
    ensures IsState(v, t + 1, after)
  {
    hide Round;
    assert WorkedAt(v, w, t);
  }

  lemma MixFacts16()
    ensures MixGives(Value(0x00000000), Value(0x00000000), Value(0x00000000), Value(0x61626380), Value(0x61626380))
    ensures MixGives(Value(0x00000018), Value(0x00000000), Value(0x00000000), Value(0x00000000), Value(0x000f0000))
    ensures MixGives(Value(0x61626380), Value(0x00000000), Value(0x00000000), Value(0x00000000), Value(0x7da86405))
    ensures MixGives(Value(0x000f0000), Value(0x00000000), Value(0x00000000), Value(0x00000000), Value(0x600003c6))
    ensures MixGives(Value(0x7da86405), Value(0x00000000), Value(0x00000000), Value(0x00000000), Value(0x3e9d7b78))
    ensures MixGives(Value(0x600003c6), Value(0x00000000), Value(0x00000000), Value(0x00000000), Value(0x0183fc00))
    ensures MixGives(Value(0x3e9d7b78), Value(0x00000018), Value(0x00000000), Value(0x00000000), Value(0x12dcbfdb))
    ensures MixGives(Value(0x0183fc00), Value(0x61626380), Value(0x00000000), Value(0x00000000), Value(0xe2e2c38e))
  {
  }

  lemma Words16(w: seq<Word>)
    requires Scheduled(w)
    requires EightWords(w, 0, Value(0x61626380), Value(0x00000000), Value(0x00000000), Value(0x00000000), Value(0x00000000), Value(0x00000000), Value(0x00000000), Value(0x00000000))
    requires EightWords(w, 8, Value(0x00000000), Value(0x00000000), Value(0x00000000), Value(0x00000000), Value(0x00000000), Value(0x00000000), Value(0x00000000), Value(0x00000018))
    ensures EightWords(w, 16, Value(0x61626380), Value(0x000f0000), Value(0x7da86405), Value(0x600003c6), Value(0x3e9d7b78), Value(0x0183fc00), Value(0x12dcbfdb), Value(0xe2e2c38e))
  {
    hide Scheduled, Mix, MixGives, IsWord;
    MixFacts16();
    OneWord(w, 16, 14, 9, 1, 0, Value(0x00000000), Value(0x00000000), Value(0x00000000), Value(0x61626380), Value(0x61626380));
    OneWord(w, 17, 15, 10, 2, 1, Value(0x00000018), Value(0x00000000), Value(0x00000000), Value(0x00000000), Value(0x000f0000));
    OneWord(w, 18, 16, 11, 3, 2, Value(0x61626380), Value(0x00000000), Value(0x00000000), Value(0x00000000), Value(0x7da86405));
    OneWord(w, 19, 17, 12, 4, 3, Value(0x000f0000), Value(0x00000000), Value(0x00000000), Value(0x00000000), Value(0x600003c6));
    OneWord(w, 20, 18, 13, 5, 4, Value(0x7da86405), Value(0x00000000), Value(0x00000000), Value(0x00000000), Value(0x3e9d7b78));
    OneWord(w, 21, 19, 14, 6, 5, Value(0x600003c6), Value(0x00000000), Value(0x00000000), Value(0x00000000), Value(0x0183fc00));
    OneWord(w, 22, 20, 15, 7, 6, Value(0x3e9d7b78), Value(0x00000018), Value(0x00000000), Value(0x00000000), Value(0x12dcbfdb));
    OneWord(w, 23, 21, 16, 8, 7, Value(0x0183fc00), Value(0x61626380), Value(0x00000000), Value(0x00000000), Value(0xe2e2c38e));
  }

  lemma MixFacts24()
    ensures MixGives(Value(0x12dcbfdb), Value(0x000f0000), Value(0x00000000), Value(0x00000000), Value(0xc8215c1a))
    ensures MixGives(Value(0xe2e2c38e), Value(0x7da86405), Value(0x00000000), Value(0x00000000), Value(0xb73679a2))
    ensures MixGives(Value(0xc8215c1a), Value(0x600003c6), Value(0x00000000), Value(0x00000000), Value(0xe5bc3909))
    ensures MixGives(Value(0xb73679a2), Value(0x3e9d7b78), Value(0x00000000), Value(0x00000000), Value(0x32663c5b))
    ensures MixGives(Value(0xe5bc3909), Value(0x0183fc00), Value(0x00000000), Value(0x00000000), Value(0x9d209d67))
    ensures MixGives(Value(0x32663c5b), Value(0x12dcbfdb), Value(0x00000000), Value(0x00000000), Value(0xec8726cb))
    ensures MixGives(Value(0x9d209d67), Value(0xe2e2c38e), Value(0x00000018), Value(0x00000000), Value(0x702138a4))
    ensures MixGives(Value(0xec8726cb), Value(0xc8215c1a), Value(0x61626380), Value(0x00000018), Value(0xd3b7973b))
  {
  }

  lemma Words24(w: seq<Word>)
    requires Scheduled(w)
    requires EightWords(w, 8, Value(0x00000000), Value(0x00000000), Value(0x00000000), Value(0x00000000), Value(0x00000000), Value(0x00000000), Value(0x00000000), Value(0x00000018))
    requires EightWords(w, 16, Value(0x61626380), Value(0x000f0000), Value(0x7da86405), Value(0x600003c6), Value(0x3e9d7b78), Value(0x0183fc00), Value(0x12dcbfdb), Value(0xe2e2c38e))
    ensures EightWords(w, 24, Value(0xc8215c1a), Value(0xb73679a2), Value(0xe5bc3909), Value(0x32663c5b), Value(0x9d209d67), Value(0xec8726cb), Value(0x702138a4), Value(0xd3b7973b))
  {
    hide Scheduled, Mix, MixGives, IsWord;
    MixFacts24();
    OneWord(w, 24, 22, 17, 9, 8, Value(0x12dcbfdb), Value(0x000f0000), Value(0x00000000), Value(0x00000000), Value(0xc8215c1a));
    OneWord(w, 25, 23, 18, 10, 9, Value(0xe2e2c38e), Value(0x7da86405), Value(0x00000000), Value(0x00000000), Value(0xb73679a2));
    OneWord(w, 26, 24, 19, 11, 10, Value(0xc8215c1a), Value(0x600003c6), Value(0x00000000), Value(0x00000000), Value(0xe5bc3909));
    OneWord(w, 27, 25, 20, 12, 11, Value(0xb73679a2), Value(0x3e9d7b78), Value(0x00000000), Value(0x00000000), Value(0x32663c5b));
    OneWord(w, 28, 26, 21, 13, 12, Value(0xe5bc3909), Value(0x0183fc00), Value(0x00000000), Value(0x00000000), Value(0x9d209d67));
    OneWord(w, 29, 27, 22, 14, 13, Value(0x32663c5b), Value(0x12dcbfdb), Value(0x00000000), Value(0x00000000), Value(0xec8726cb));
    OneWord(w, 30, 28, 23, 15, 14, Value(0x9d209d67), Value(0xe2e2c38e), Value(0x00000018), Value(0x00000000), Value(0x702138a4));
    OneWord(w, 31, 29, 24, 16, 15, Value(0xec8726cb), Value(0xc8215c1a), Value(0x61626380), Value(0x00000018), Value(0xd3b7973b));
  }

  lemma MixFacts32()
    ensures MixGives(Value(0x702138a4), Value(0xb73679a2), Value(0x000f0000), Value(0x61626380), Value(0x93f5997f))
    ensures MixGives(Value(0xd3b7973b), Value(0xe5bc3909), Value(0x7da86405), Value(0x000f0000), Value(0x3b68ba73))
    ensures MixGives(Value(0x93f5997f), Value(0x32663c5b), Value(0x600003c6), Value(0x7da86405), Value(0xaff4ffc1))
    ensures MixGives(Value(0x3b68ba73), Value(0x9d209d67), Value(0x3e9d7b78), Value(0x600003c6), Value(0xf10a5c62))
    ensures MixGives(Value(0xaff4ffc1), Value(0xec8726cb), Value(0x0183fc00), Value(0x3e9d7b78), Value(0x0a8b3996))
    ensures MixGives(Value(0xf10a5c62), Value(0x702138a4), Value(0x12dcbfdb), Value(0x0183fc00), Value(0x72af830a))
    ensures MixGives(Value(0x0a8b3996), Value(0xd3b7973b), Value(0xe2e2c38e), Value(0x12dcbfdb), Value(0x9409e33e))
    ensures MixGives(Value(0x72af830a), Value(0x93f5997f), Value(0xc8215c1a), Value(0xe2e2c38e), Value(0x24641522))
  {
  }

  lemma Words32(w: seq<Word>)
    requires Scheduled(w)
    requires EightWords(w, 16, Value(0x61626380), Value(0x000f0000), Value(0x7da86405), Value(0x600003c6), Value(0x3e9d7b78), Value(0x0183fc00), Value(0x12dcbfdb), Value(0xe2e2c38e))
    requires EightWords(w, 24, Value(0xc8215c1a), Value(0xb73679a2), Value(0xe5bc3909), Value(0x32663c5b), Value(0x9d209d67), Value(0xec8726cb), Value(0x702138a4), Value(0xd3b7973b))
    ensures EightWords(w, 32, Value(0x93f5997f), Value(0x3b68ba73), Value(0xaff4ffc1), Value(0xf10a5c62), Value(0x0a8b3996), Value(0x72af830a), Value(0x9409e33e), Value(0x24641522))
  {
    hide Scheduled, Mix, MixGives, IsWord;
    MixFacts32();
    OneWord(w, 32, 30, 25, 17, 16, Value(0x702138a4), Value(0xb73679a2), Value(0x000f0000), Value(0x61626380), Value(0x93f5997f));
    OneWord(w, 33, 31, 26, 18, 17, Value(0xd3b7973b), Value(0xe5bc3909), Value(0x7da86405), Value(0x000f0000), Value(0x3b68ba73));
    OneWord(w, 34, 32, 27, 19, 18, Value(0x93f5997f), Value(0x32663c5b), Value(0x600003c6), Value(0x7da86405), Value(0xaff4ffc1));
    OneWord(w, 35, 33, 28, 20, 19, Value(0x3b68ba73), Value(0x9d209d67), Value(0x3e9d7b78), Value(0x600003c6), Value(0xf10a5c62));
    OneWord(w, 36, 34, 29, 21, 20, Value(0xaff4ffc1), Value(0xec8726cb), Value(0x0183fc00), Value(0x3e9d7b78), Value(0x0a8b3996));
    OneWord(w, 37, 35, 30, 22, 21, Value(0xf10a5c62), Value(0x702138a4), Value(0x12dcbfdb), Value(0x0183fc00), Value(0x72af830a));
    OneWord(w, 38, 36, 31, 23, 22, Value(0x0a8b3996), Value(0xd3b7973b), Value(0xe2e2c38e), Value(0x12dcbfdb), Value(0x9409e33e));
    OneWord(w, 39, 37, 32, 24, 23, Value(0x72af830a), Value(0x93f5997f), Value(0xc8215c1a), Value(0xe2e2c38e), Value(0x24641522));
  }

  lemma MixFacts40()
    ensures MixGives(Value(0x9409e33e), Value(0x3b68ba73), Value(0xb73679a2), Value(0xc8215c1a), Value(0x9f47bf94))
    ensures MixGives(Value(0x24641522), Value(0xaff4ffc1), Value(0xe5bc3909), Value(0xb73679a2), Value(0xf0a64f5a))
    ensures MixGives(Value(0x9f47bf94), Value(0xf10a5c62), Value(0x32663c5b), Value(0xe5bc3909), Value(0x3e246a79))
    ensures MixGives(Value(0xf0a64f5a), Value(0x0a8b3996), Value(0x9d209d67), Value(0x32663c5b), Value(0x27333ba3))
    ensures MixGives(Value(0x3e246a79), Value(0x72af830a), Value(0xec8726cb), Value(0x9d209d67), Value(0x0c4763f2))
    ensures MixGives(Value(0x27333ba3), Value(0x9409e33e), Value(0x702138a4), Value(0xec8726cb), Value(0x840abf27))
    ensures MixGives(Value(0x0c4763f2), Value(0x24641522), Value(0xd3b7973b), Value(0x702138a4), Value(0x7a290d5d))
    ensures MixGives(Value(0x840abf27), Value(0x9f47bf94), Value(0x93f5997f), Value(0xd3b7973b), Value(0x065c43da))
  {
  }

  lemma Words40(w: seq<Word>)
    requires Scheduled(w)
    requires EightWords(w, 24, Value(0xc8215c1a), Value(0xb73679a2), Value(0xe5bc3909), Value(0x32663c5b), Value(0x9d209d67), Value(0xec8726cb), Value(0x702138a4), Value(0xd3b7973b))
    requires EightWords(w, 32, Value(0x93f5997f), Value(0x3b68ba73), Value(0xaff4ffc1), Value(0xf10a5c62), Value(0x0a8b3996), Value(0x72af830a), Value(0x9409e33e), Value(0x24641522))
    ensures EightWords(w, 40, Value(0x9f47bf94), Value(0xf0a64f5a), Value(0x3e246a79), Value(0x27333ba3), Value(0x0c4763f2), Value(0x840abf27), Value(0x7a290d5d), Value(0x065c43da))
  {
    hide Scheduled, Mix, MixGives, IsWord;
    MixFacts40();
    OneWord(w, 40, 38, 33, 25, 24, Value(0x9409e33e), Value(0x3b68ba73), Value(0xb73679a2), Value(0xc8215c1a), Value(0x9f47bf94));
    OneWord(w, 41, 39, 34, 26, 25, Value(0x24641522), Value(0xaff4ffc1), Value(0xe5bc3909), Value(0xb73679a2), Value(0xf0a64f5a));
    OneWord(w, 42, 40, 35, 27, 26, Value(0x9f47bf94), Value(0xf10a5c62), Value(0x32663c5b), Value(0xe5bc3909), Value(0x3e246a79));
    OneWord(w, 43, 41, 36, 28, 27, Value(0xf0a64f5a), Value(0x0a8b3996), Value(0x9d209d67), Value(0x32663c5b), Value(0x27333ba3));
    OneWord(w, 44, 42, 37, 29, 28, Value(0x3e246a79), Value(0x72af830a), Value(0xec8726cb), Value(0x9d209d67), Value(0x0c4763f2));
    OneWord(w, 45, 43, 38, 30, 29, Value(0x27333ba3), Value(0x9409e33e), Value(0x702138a4), Value(0xec8726cb), Value(0x840abf27));
    OneWord(w, 46, 44, 39, 31, 30, Value(0x0c4763f2), Value(0x24641522), Value(0xd3b7973b), Value(0x702138a4), Value(0x7a290d5d));
    OneWord(w, 47, 45, 40, 32, 31, Value(0x840abf27), Value(0x9f47bf94), Value(0x93f5997f), Value(0xd3b7973b), Value(0x065c43da));
  }

  lemma MixFacts48()
    ensures MixGives(Value(0x7a290d5d), Value(0xf0a64f5a), Value(0x3b68ba73), Value(0x93f5997f), Value(0xfb3e89cb))
    ensures MixGives(Value(0x065c43da), Value(0x3e246a79), Value(0xaff4ffc1), Value(0x3b68ba73), Value(0xcc7617db))
    ensures MixGives(Value(0xfb3e89cb), Value(0x27333ba3), Value(0xf10a5c62), Value(0xaff4ffc1), Value(0xb9e66c34))
    ensures MixGives(Value(0xcc7617db), Value(0x0c4763f2), Value(0x0a8b3996), Value(0xf10a5c62), Value(0xa9993667))
    ensures MixGives(Value(0xb9e66c34), Value(0x840abf27), Value(0x72af830a), Value(0x0a8b3996), Value(0x84badedd))
    ensures MixGives(Value(0xa9993667), Value(0x7a290d5d), Value(0x9409e33e), Value(0x72af830a), Value(0xc21462bc))
    ensures MixGives(Value(0x84badedd), Value(0x065c43da), Value(0x24641522), Value(0x9409e33e), Value(0x1487472c))
    ensures MixGives(Value(0xc21462bc), Value(0xfb3e89cb), Value(0x9f47bf94), Value(0x24641522), Value(0xb20f7a99))
  {
  }

  lemma Words48(w: seq<Word>)
    requires Scheduled(w)
    requires EightWords(w, 32, Value(0x93f5997f), Value(0x3b68ba73), Value(0xaff4ffc1), Value(0xf10a5c62), Value(0x0a8b3996), Value(0x72af830a), Value(0x9409e33e), Value(0x24641522))
    requires EightWords(w, 40, Value(0x9f47bf94), Value(0xf0a64f5a), Value(0x3e246a79), Value(0x27333ba3), Value(0x0c4763f2), Value(0x840abf27), Value(0x7a290d5d), Value(0x065c43da))
    ensures EightWords(w, 48, Value(0xfb3e89cb), Value(0xcc7617db), Value(0xb9e66c34), Value(0xa9993667), Value(0x84badedd), Value(0xc21462bc), Value(0x1487472c), Value(0xb20f7a99))
  {
    hide Scheduled, Mix, MixGives, IsWord;
    MixFacts48();
    OneWord(w, 48, 46, 41, 33, 32, Value(0x7a290d5d), Value(0xf0a64f5a), Value(0x3b68ba73), Value(0x93f5997f), Value(0xfb3e89cb));
    OneWord(w, 49, 47, 42, 34, 33, Value(0x065c43da), Value(0x3e246a79), Value(0xaff4ffc1), Value(0x3b68ba73), Value(0xcc7617db));
    OneWord(w, 50, 48, 43, 35, 34, Value(0xfb3e89cb), Value(0x27333ba3), Value(0xf10a5c62), Value(0xaff4ffc1), Value(0xb9e66c34));
    OneWord(w, 51, 49, 44, 36, 35, Value(0xcc7617db), Value(0x0c4763f2), Value(0x0a8b3996), Value(0xf10a5c62), Value(0xa9993667));
    OneWord(w, 52, 50, 45, 37, 36, Value(0xb9e66c34), Value(0x840abf27), Value(0x72af830a), Value(0x0a8b3996), Value(0x84badedd));
    OneWord(w, 53, 51, 46, 38, 37, Value(0xa9993667), Value(0x7a290d5d), Value(0x9409e33e), Value(0x72af830a), Value(0xc21462bc));
    OneWord(w, 54, 52, 47, 39, 38, Value(0x84badedd), Value(0x065c43da), Value(0x24641522), Value(0x9409e33e), Value(0x1487472c));
    OneWord(w, 55, 53, 48, 40, 39, Value(0xc21462bc), Value(0xfb3e89cb), Value(0x9f47bf94), Value(0x24641522), Value(0xb20f7a99));
  }

  lemma MixFacts56()
    ensures MixGives(Value(0x1487472c), Value(0xcc7617db), Value(0xf0a64f5a), Value(0x9f47bf94), Value(0xef57b9cd))
    ensures MixGives(Value(0xb20f7a99), Value(0xb9e66c34), Value(0x3e246a79), Value(0xf0a64f5a), Value(0xebe6b238))
    ensures MixGives(Value(0xef57b9cd), Value(0xa9993667), Value(0x27333ba3), Value(0x3e246a79), Value(0x9fe3095e))
    ensures MixGives(Value(0xebe6b238), Value(0x84badedd), Value(0x0c4763f2), Value(0x27333ba3), Value(0x78bc8d4b))
    ensures MixGives(Value(0x9fe3095e), Value(0xc21462bc), Value(0x840abf27), Value(0x0c4763f2), Value(0xa43fcf15))
    ensures MixGives(Value(0x78bc8d4b), Value(0x1487472c), Value(0x7a290d5d), Value(0x840abf27), Value(0x668b2ff8))
    ensures MixGives(Value(0xa43fcf15), Value(0xb20f7a99), Value(0x065c43da), Value(0x7a290d5d), Value(0xeeaba2cc))
    ensures MixGives(Value(0x668b2ff8), Value(0xef57b9cd), Value(0xfb3e89cb), Value(0x065c43da), Value(0x12b1edeb))
  {
  }

  lemma Words56(w: seq<Word>)
    requires Scheduled(w)
    requires EightWords(w, 40, Value(0x9f47bf94), Value(0xf0a64f5a), Value(0x3e246a79), Value(0x27333ba3), Value(0x0c4763f2), Value(0x840abf27), Value(0x7a290d5d), Value(0x065c43da))
    requires EightWords(w, 48, Value(0xfb3e89cb), Value(0xcc7617db), Value(0xb9e66c34), Value(0xa9993667), Value(0x84badedd), Value(0xc21462bc), Value(0x1487472c), Value(0xb20f7a99))
    ensures EightWords(w, 56, Value(0xef57b9cd), Value(0xebe6b238), Value(0x9fe3095e), Value(0x78bc8d4b), Value(0xa43fcf15), Value(0x668b2ff8), Value(0xeeaba2cc), Value(0x12b1edeb))
  {
    hide Scheduled, Mix, MixGives, IsWord;
    MixFacts56();
    OneWord(w, 56, 54, 49, 41, 40, Value(0x1487472c), Value(0xcc7617db), Value(0xf0a64f5a), Value(0x9f47bf94), Value(0xef57b9cd));
    OneWord(w, 57, 55, 50, 42, 41, Value(0xb20f7a99), Value(0xb9e66c34), Value(0x3e246a79), Value(0xf0a64f5a), Value(0xebe6b238));
    OneWord(w, 58, 56, 51, 43, 42, Value(0xef57b9cd), Value(0xa9993667), Value(0x27333ba3), Value(0x3e246a79), Value(0x9fe3095e));
    OneWord(w, 59, 57, 52, 44, 43, Value(0xebe6b238), Value(0x84badedd), Value(0x0c4763f2), Value(0x27333ba3), Value(0x78bc8d4b));
    OneWord(w, 60, 58, 53, 45, 44, Value(0x9fe3095e), Value(0xc21462bc), Value(0x840abf27), Value(0x0c4763f2), Value(0xa43fcf15));
    OneWord(w, 61, 59, 54, 46, 45, Value(0x78bc8d4b), Value(0x1487472c), Value(0x7a290d5d), Value(0x840abf27), Value(0x668b2ff8));
    OneWord(w, 62, 60, 55, 47, 46, Value(0xa43fcf15), Value(0xb20f7a99), Value(0x065c43da), Value(0x7a290d5d), Value(0xeeaba2cc));
    OneWord(w, 63, 61, 56, 48, 47, Value(0x668b2ff8), Value(0xef57b9cd), Value(0xfb3e89cb), Value(0x065c43da), Value(0x12b1edeb));
  }

  lemma RoundFacts0()
    ensures RoundGives(0, Working(0x6a09e667, 0xbb67ae85, 0x3c6ef372, 0xa54ff53a, 0x510e527f, 0x9b05688c, 0x1f83d9ab, 0x5be0cd19), Value(0x61626380), Working(0x5d6aebcd, 0x6a09e667, 0xbb67ae85, 0x3c6ef372, 0xfa2a4622, 0x510e527f, 0x9b05688c, 0x1f83d9ab))
    ensures RoundGives(1, Working(0x5d6aebcd, 0x6a09e667, 0xbb67ae85, 0x3c6ef372, 0xfa2a4622, 0x510e527f, 0x9b05688c, 0x1f83d9ab), Value(0x00000000), Working(0x5a6ad9ad, 0x5d6aebcd, 0x6a09e667, 0xbb67ae85, 0x78ce7989, 0xfa2a4622, 0x510e527f, 0x9b05688c))
    ensures RoundGives(2, Working(0x5a6ad9ad, 0x5d6aebcd, 0x6a09e667, 0xbb67ae85, 0x78ce7989, 0xfa2a4622, 0x510e527f, 0x9b05688c), Value(0x00000000), Working(0xc8c347a7, 0x5a6ad9ad, 0x5d6aebcd, 0x6a09e667, 0xf92939eb, 0x78ce7989, 0xfa2a4622, 0x510e527f))
    ensures RoundGives(3, Working(0xc8c347a7, 0x5a6ad9ad, 0x5d6aebcd, 0x6a09e667, 0xf92939eb, 0x78ce7989, 0xfa2a4622, 0x510e527f), Value(0x00000000), Working(0xd550f666, 0xc8c347a7, 0x5a6ad9ad, 0x5d6aebcd, 0x24e00850, 0xf92939eb, 0x78ce7989, 0xfa2a4622))
    ensures RoundGives(4, Working(0xd550f666, 0xc8c347a7, 0x5a6ad9ad, 0x5d6aebcd, 0x24e00850, 0xf92939eb, 0x78ce7989, 0xfa2a4622), Value(0x00000000), Working(0x04409a6a, 0xd550f666, 0xc8c347a7, 0x5a6ad9ad, 0x43ada245, 0x24e00850, 0xf92939eb, 0x78ce7989))
    ensures RoundGives(5, Working(0x04409a6a, 0xd550f666, 0xc8c347a7, 0x5a6ad9ad, 0x43ada245, 0x24e00850, 0xf92939eb, 0x78ce7989), Value(0x00000000), Working(0x2b4209f5, 0x04409a6a, 0xd550f666, 0xc8c347a7, 0x714260ad, 0x43ada245, 0x24e00850, 0xf92939eb))
    ensures RoundGives(6, Working(0x2b4209f5, 0x04409a6a, 0xd550f666, 0xc8c347a7, 0x714260ad, 0x43ada245, 0x24e00850, 0xf92939eb), Value(0x00000000), Working(0xe5030380, 0x2b4209f5, 0x04409a6a, 0xd550f666, 0x9b27a401, 0x714260ad, 0x43ada245, 0x24e00850))
    ensures RoundGives(7, Working(0xe5030380, 0x2b4209f5, 0x04409a6a, 0xd550f666, 0x9b27a401, 0x714260ad, 0x43ada245, 0x24e00850), Value(0x00000000), Working(0x85a07b5f, 0xe5030380, 0x2b4209f5, 0x04409a6a, 0x0c657a79, 0x9b27a401, 0x714260ad, 0x43ada245))
  {
    var constants := ROUND_CONSTANTS;
    assert constants[0] == 0x428a2f98 && constants[1] == 0x71374491 && constants[2] == 0xb5c0fbcf && constants[3] == 0xe9b5dba5 && constants[4] == 0x3956c25b && constants[5] == 0x59f111f1 && constants[6] == 0x923f82a4 && constants[7] == 0xab1c5ed5;
  }

  lemma Rounds0(v: seq<Working>, w: seq<Word>)
    requires Worked(v, w) && IsState(v, 0, Working(0x6a09e667, 0xbb67ae85, 0x3c6ef372, 0xa54ff53a, 0x510e527f, 0x9b05688c, 0x1f83d9ab, 0x5be0cd19))
    requires EightWords(w, 0, Value(0x61626380), Value(0x00000000), Value(0x00000000), Value(0x00000000), Value(0x00000000), Value(0x00000000), Value(0x00000000), Value(0x00000000))
    ensures IsState(v, 8, Working(0x85a07b5f, 0xe5030380, 0x2b4209f5, 0x04409a6a, 0x0c657a79, 0x9b27a401, 0x714260ad, 0x43ada245))
  {
    hide Worked, Round, RoundGives, IsWord, IsState;
    RoundFacts0();
    OneRound(v, w, 0, Value(0x61626380), Working(0x6a09e667, 0xbb67ae85, 0x3c6ef372, 0xa54ff53a, 0x510e527f, 0x9b05688c, 0x1f83d9ab, 0x5be0cd19), Working(0x5d6aebcd, 0x6a09e667, 0xbb67ae85, 0x3c6ef372, 0xfa2a4622, 0x510e527f, 0x9b05688c, 0x1f83d9ab));
    OneRound(v, w, 1, Value(0x00000000), Working(0x5d6aebcd, 0x6a09e667, 0xbb67ae85, 0x3c6ef372, 0xfa2a4622, 0x510e527f, 0x9b05688c, 0x1f83d9ab), Working(0x5a6ad9ad, 0x5d6aebcd, 0x6a09e667, 0xbb67ae85, 0x78ce7989, 0xfa2a4622, 0x510e527f, 0x9b05688c));
    OneRound(v, w, 2, Value(0x00000000), Working(0x5a6ad9ad, 0x5d6aebcd, 0x6a09e667, 0xbb67ae85, 0x78ce7989, 0xfa2a4622, 0x510e527f, 0x9b05688c), Working(0xc8c347a7, 0x5a6ad9ad, 0x5d6aebcd, 0x6a09e667, 0xf92939eb, 0x78ce7989, 0xfa2a4622, 0x510e527f));
    OneRound(v, w, 3, Value(0x00000000), Working(0xc8c347a7, 0x5a6ad9ad, 0x5d6aebcd, 0x6a09e667, 0xf92939eb, 0x78ce7989, 0xfa2a4622, 0x510e527f), Working(0xd550f666, 0xc8c347a7, 0x5a6ad9ad, 0x5d6aebcd, 0x24e00850, 0xf92939eb, 0x78ce7989, 0xfa2a4622));
    OneRound(v, w, 4, Value(0x00000000), Working(0xd550f666, 0xc8c347a7, 0x5a6ad9ad, 0x5d6aebcd, 0x24e00850, 0xf92939eb, 0x78ce7989, 0xfa2a4622), Working(0x04409a6a, 0xd550f666, 0xc8c347a7, 0x5a6ad9ad, 0x43ada245, 0x24e00850, 0xf92939eb, 0x78ce7989));
    OneRound(v, w, 5, Value(0x00000000), Working(0x04409a6a, 0xd550f666, 0xc8c347a7, 0x5a6ad9ad, 0x43ada245, 0x24e00850, 0xf92939eb, 0x78ce7989), Working(0x2b4209f5, 0x04409a6a, 0xd550f666, 0xc8c347a7, 0x714260ad, 0x43ada245, 0x24e00850, 0xf92939eb));
    OneRound(v, w, 6, Value(0x00000000), Working(0x2b4209f5, 0x04409a6a, 0xd550f666, 0xc8c347a7, 0x714260ad, 0x43ada245, 0x24e00850, 0xf92939eb), Working(0xe5030380, 0x2b4209f5, 0x04409a6a, 0xd550f666, 0x9b27a401, 0x714260ad, 0x43ada245, 0x24e00850));
    OneRound(v, w, 7, Value(0x00000000), Working(0xe5030380, 0x2b4209f5, 0x04409a6a, 0xd550f666, 0x9b27a401, 0x714260ad, 0x43ada245, 0x24e00850), Working(0x85a07b5f, 0xe5030380, 0x2b4209f5, 0x04409a6a, 0x0c657a79, 0x9b27a401, 0x714260ad, 0x43ada245));
  }

  lemma RoundFacts8()
    ensures RoundGives(8, Working(0x85a07b5f, 0xe5030380, 0x2b4209f5, 0x04409a6a, 0x0c657a79, 0x9b27a401, 0x714260ad, 0x43ada245), Value(0x00000000), Working(0x8e04ecb9, 0x85a07b5f, 0xe5030380, 0x2b4209f5, 0x32ca2d8c, 0x0c657a79, 0x9b27a401, 0x714260ad))
    ensures RoundGives(9, Working(0x8e04ecb9, 0x85a07b5f, 0xe5030380, 0x2b4209f5, 0x32ca2d8c, 0x0c657a79, 0x9b27a401, 0x714260ad), Value(0x00000000), Working(0x8c87346b, 0x8e04ecb9, 0x85a07b5f, 0xe5030380, 0x1cc92596, 0x32ca2d8c, 0x0c657a79, 0x9b27a401))
    ensures RoundGives(10, Working(0x8c87346b, 0x8e04ecb9, 0x85a07b5f, 0xe5030380, 0x1cc92596, 0x32ca2d8c, 0x0c657a79, 0x9b27a401), Value(0x00000000), Working(0x4798a3f4, 0x8c87346b, 0x8e04ecb9, 0x85a07b5f, 0x436b23e8, 0x1cc92596, 0x32ca2d8c, 0x0c657a79))
    ensures RoundGives(11, Working(0x4798a3f4, 0x8c87346b, 0x8e04ecb9, 0x85a07b5f, 0x436b23e8, 0x1cc92596, 0x32ca2d8c, 0x0c657a79), Value(0x00000000), Working(0xf71fc5a9, 0x4798a3f4, 0x8c87346b, 0x8e04ecb9, 0x816fd6e9, 0x436b23e8, 0x1cc92596, 0x32ca2d8c))
    ensures RoundGives(12, Working(0xf71fc5a9, 0x4798a3f4, 0x8c87346b, 0x8e04ecb9, 0x816fd6e9, 0x436b23e8, 0x1cc92596, 0x32ca2d8c), Value(0x00000000), Working(0x87912990, 0xf71fc5a9, 0x4798a3f4, 0x8c87346b, 0x1e578218, 0x816fd6e9, 0x436b23e8, 0x1cc92596))
    ensures RoundGives(13, Working(0x87912990, 0xf71fc5a9, 0x4798a3f4, 0x8c87346b, 0x1e578218, 0x816fd6e9, 0x436b23e8, 0x1cc92596), Value(0x00000000), Working(0xd932eb16, 0x87912990, 0xf71fc5a9, 0x4798a3f4, 0x745a48de, 0x1e578218, 0x816fd6e9, 0x436b23e8))
    ensures RoundGives(14, Working(0xd932eb16, 0x87912990, 0xf71fc5a9, 0x4798a3f4, 0x745a48de, 0x1e578218, 0x816fd6e9, 0x436b23e8), Value(0x00000000), Working(0xc0645fde, 0xd932eb16, 0x87912990, 0xf71fc5a9, 0x0b92f20c, 0x745a48de, 0x1e578218, 0x816fd6e9))
    ensures RoundGives(15, Working(0xc0645fde, 0xd932eb16, 0x87912990, 0xf71fc5a9, 0x0b92f20c, 0x745a48de, 0x1e578218, 0x816fd6e9), Value(0x00000018), Working(0xb0fa238e, 0xc0645fde, 0xd932eb16, 0x87912990, 0x07590dcd, 0x0b92f20c, 0x745a48de, 0x1e578218))
  {
    var constants := ROUND_CONSTANTS;
    assert constants[8] == 0xd807aa98 && constants[9] == 0x12835b01 && constants[10] == 0x243185be && constants[11] == 0x550c7dc3 && constants[12] == 0x72be5d74 && constants[13] == 0x80deb1fe && constants[14] == 0x9bdc06a7 && constants[15] == 0xc19bf174;
  }

  lemma Rounds8(v: seq<Working>, w: seq<Word>)
    requires Worked(v, w) && IsState(v, 8, Working(0x85a07b5f, 0xe5030380, 0x2b4209f5, 0x04409a6a, 0x0c657a79, 0x9b27a401, 0x714260ad, 0x43ada245))
    requires EightWords(w, 8, Value(0x00000000), Value(0x00000000), Value(0x00000000), Value(0x00000000), Value(0x00000000), Value(0x00000000), Value(0x00000000), Value(0x00000018))
    ensures IsState(v, 16, Working(0xb0fa238e, 0xc0645fde, 0xd932eb16, 0x87912990, 0x07590dcd, 0x0b92f20c, 0x745a48de, 0x1e578218))
  {
    hide Worked, Round, RoundGives, IsWord, IsState;
    RoundFacts8();
    OneRound(v, w, 8, Value(0x00000000), Working(0x85a07b5f, 0xe5030380, 0x2b4209f5, 0x04409a6a, 0x0c657a79, 0x9b27a401, 0x714260ad, 0x43ada245), Working(0x8e04ecb9, 0x85a07b5f, 0xe5030380, 0x2b4209f5, 0x32ca2d8c, 0x0c657a79, 0x9b27a401, 0x714260ad));
    OneRound(v, w, 9, Value(0x00000000), Working(0x8e04ecb9, 0x85a07b5f, 0xe5030380, 0x2b4209f5, 0x32ca2d8c, 0x0c657a79, 0x9b27a401, 0x714260ad), Working(0x8c87346b, 0x8e04ecb9, 0x85a07b5f, 0xe5030380, 0x1cc92596, 0x32ca2d8c, 0x0c657a79, 0x9b27a401));
    OneRound(v, w, 10, Value(0x00000000), Working(0x8c87346b, 0x8e04ecb9, 0x85a07b5f, 0xe5030380, 0x1cc92596, 0x32ca2d8c, 0x0c657a79, 0x9b27a401), Working(0x4798a3f4, 0x8c87346b, 0x8e04ecb9, 0x85a07b5f, 0x436b23e8, 0x1cc92596, 0x32ca2d8c, 0x0c657a79));
    OneRound(v, w, 11, Value(0x00000000), Working(0x4798a3f4, 0x8c87346b, 0x8e04ecb9, 0x85a07b5f, 0x436b23e8, 0x1cc92596, 0x32ca2d8c, 0x0c657a79), Working(0xf71fc5a9, 0x4798a3f4, 0x8c87346b, 0x8e04ecb9, 0x816fd6e9, 0x436b23e8, 0x1cc92596, 0x32ca2d8c));
    OneRound(v, w, 12, Value(0x00000000), Working(0xf71fc5a9, 0x4798a3f4, 0x8c87346b, 0x8e04ecb9, 0x816fd6e9, 0x436b23e8, 0x1cc92596, 0x32ca2d8c), Working(0x87912990, 0xf71fc5a9, 0x4798a3f4, 0x8c87346b, 0x1e578218, 0x816fd6e9, 0x436b23e8, 0x1cc92596));
    OneRound(v, w, 13, Value(0x00000000), Working(0x87912990, 0xf71fc5a9, 0x4798a3f4, 0x8c87346b, 0x1e578218, 0x816fd6e9, 0x436b23e8, 0x1cc92596), Working(0xd932eb16, 0x87912990, 0xf71fc5a9, 0x4798a3f4, 0x745a48de, 0x1e578218, 0x816fd6e9, 0x436b23e8));
    OneRound(v, w, 14, Value(0x00000000), Working(0xd932eb16, 0x87912990, 0xf71fc5a9, 0x4798a3f4, 0x745a48de, 0x1e578218, 0x816fd6e9, 0x436b23e8), Working(0xc0645fde, 0xd932eb16, 0x87912990, 0xf71fc5a9, 0x0b92f20c, 0x745a48de, 0x1e578218, 0x816fd6e9));
    OneRound(v, w, 15, Value(0x00000018), Working(0xc0645fde, 0xd932eb16, 0x87912990, 0xf71fc5a9, 0x0b92f20c, 0x745a48de, 0x1e578218, 0x816fd6e9), Working(0xb0fa238e, 0xc0645fde, 0xd932eb16, 0x87912990, 0x07590dcd, 0x0b92f20c, 0x745a48de, 0x1e578218));
  }

  lemma RoundFacts16()
    ensures RoundGives(16, Working(0xb0fa238e, 0xc0645fde, 0xd932eb16, 0x87912990, 0x07590dcd, 0x0b92f20c, 0x745a48de, 0x1e578218), Value(0x61626380), Working(0x21da9a9b, 0xb0fa238e, 0xc0645fde, 0xd932eb16, 0x8034229c, 0x07590dcd, 0x0b92f20c, 0x745a48de))
    ensures RoundGives(17, Working(0x21da9a9b, 0xb0fa238e, 0xc0645fde, 0xd932eb16, 0x8034229c, 0x07590dcd, 0x0b92f20c, 0x745a48de), Value(0x000f0000), Working(0xc2fbd9d1, 0x21da9a9b, 0xb0fa238e, 0xc0645fde, 0x846ee454, 0x8034229c, 0x07590dcd, 0x0b92f20c))
    ensures RoundGives(18, Working(0xc2fbd9d1, 0x21da9a9b, 0xb0fa238e, 0xc0645fde, 0x846ee454, 0x8034229c, 0x07590dcd, 0x0b92f20c), Value(0x7da86405), Working(0xfe777bbf, 0xc2fbd9d1, 0x21da9a9b, 0xb0fa238e, 0xcc899961, 0x846ee454, 0x8034229c, 0x07590dcd))
    ensures RoundGives(19, Working(0xfe777bbf, 0xc2fbd9d1, 0x21da9a9b, 0xb0fa238e, 0xcc899961, 0x846ee454, 0x8034229c, 0x07590dcd), Value(0x600003c6), Working(0xe1f20c33, 0xfe777bbf, 0xc2fbd9d1, 0x21da9a9b, 0xb0638179, 0xcc899961, 0x846ee454, 0x8034229c))
    ensures RoundGives(20, Working(0xe1f20c33, 0xfe777bbf, 0xc2fbd9d1, 0x21da9a9b, 0xb0638179, 0xcc899961, 0x846ee454, 0x8034229c), Value(0x3e9d7b78), Working(0x9dc68b63, 0xe1f20c33, 0xfe777bbf, 0xc2fbd9d1, 0x8ada8930, 0xb0638179, 0xcc899961, 0x846ee454))
    ensures RoundGives(21, Working(0x9dc68b63, 0xe1f20c33, 0xfe777bbf, 0xc2fbd9d1, 0x8ada8930, 0xb0638179, 0xcc899961, 0x846ee454), Value(0x0183fc00), Working(0xc2606d6d, 0x9dc68b63, 0xe1f20c33, 0xfe777bbf, 0xe1257970, 0x8ada8930, 0xb0638179, 0xcc899961))
    ensures RoundGives(22, Working(0xc2606d6d, 0x9dc68b63, 0xe1f20c33, 0xfe777bbf, 0xe1257970, 0x8ada8930, 0xb0638179, 0xcc899961), Value(0x12dcbfdb), Working(0xa7a3623f, 0xc2606d6d, 0x9dc68b63, 0xe1f20c33, 0x49f5114a, 0xe1257970, 0x8ada8930, 0xb0638179))
    ensures RoundGives(23, Working(0xa7a3623f, 0xc2606d6d, 0x9dc68b63, 0xe1f20c33, 0x49f5114a, 0xe1257970, 0x8ada8930, 0xb0638179), Value(0xe2e2c38e), Working(0xc5d53d8d, 0xa7a3623f, 0xc2606d6d, 0x9dc68b63, 0xaa47c347, 0x49f5114a, 0xe1257970, 0x8ada8930))
  {
    var constants := ROUND_CONSTANTS;
    assert constants[16] == 0xe49b69c1 && constants[17] == 0xefbe4786 && constants[18] == 0x0fc19dc6 && constants[19] == 0x240ca1cc && constants[20] == 0x2de92c6f && constants[21] == 0x4a7484aa && constants[22] == 0x5cb0a9dc && constants[23] == 0x76f988da;
  }

  lemma Rounds16(v: seq<Working>, w: seq<Word>)
    requires Worked(v, w) && IsState(v, 16, Working(0xb0fa238e, 0xc0645fde, 0xd932eb16, 0x87912990, 0x07590dcd, 0x0b92f20c, 0x745a48de, 0x1e578218))
    requires EightWords(w, 16, Value(0x61626380), Value(0x000f0000), Value(0x7da86405), Value(0x600003c6), Value(0x3e9d7b78), Value(0x0183fc00), Value(0x12dcbfdb), Value(0xe2e2c38e))
    ensures IsState(v, 24, Working(0xc5d53d8d, 0xa7a3623f, 0xc2606d6d, 0x9dc68b63, 0xaa47c347, 0x49f5114a, 0xe1257970, 0x8ada8930))
  {
    hide Worked, Round, RoundGives, IsWord, IsState;
    RoundFacts16();
    OneRound(v, w, 16, Value(0x61626380), Working(0xb0fa238e, 0xc0645fde, 0xd932eb16, 0x87912990, 0x07590dcd, 0x0b92f20c, 0x745a48de, 0x1e578218), Working(0x21da9a9b, 0xb0fa238e, 0xc0645fde, 0xd932eb16, 0x8034229c, 0x07590dcd, 0x0b92f20c, 0x745a48de));
    OneRound(v, w, 17, Value(0x000f0000), Working(0x21da9a9b, 0xb0fa238e, 0xc0645fde, 0xd932eb16, 0x8034229c, 0x07590dcd, 0x0b92f20c, 0x745a48de), Working(0xc2fbd9d1, 0x21da9a9b, 0xb0fa238e, 0xc0645fde, 0x846ee454, 0x8034229c, 0x07590dcd, 0x0b92f20c));
    OneRound(v, w, 18, Value(0x7da86405), Working(0xc2fbd9d1, 0x21da9a9b, 0xb0fa238e, 0xc0645fde, 0x846ee454, 0x8034229c, 0x07590dcd, 0x0b92f20c), Working(0xfe777bbf, 0xc2fbd9d1, 0x21da9a9b, 0xb0fa238e, 0xcc899961, 0x846ee454, 0x8034229c, 0x07590dcd));
    OneRound(v, w, 19, Value(0x600003c6), Working(0xfe777bbf, 0xc2fbd9d1, 0x21da9a9b, 0xb0fa238e, 0xcc899961, 0x846ee454, 0x8034229c, 0x07590dcd), Working(0xe1f20c33, 0xfe777bbf, 0xc2fbd9d1, 0x21da9a9b, 0xb0638179, 0xcc899961, 0x846ee454, 0x8034229c));
    OneRound(v, w, 20, Value(0x3e9d7b78), Working(0xe1f20c33, 0xfe777bbf, 0xc2fbd9d1, 0x21da9a9b, 0xb0638179, 0xcc899961, 0x846ee454, 0x8034229c), Working(0x9dc68b63, 0xe1f20c33, 0xfe777bbf, 0xc2fbd9d1, 0x8ada8930, 0xb0638179, 0xcc899961, 0x846ee454));
    OneRound(v, w, 21, Value(0x0183fc00), Working(0x9dc68b63, 0xe1f20c33, 0xfe777bbf, 0xc2fbd9d1, 0x8ada8930, 0xb0638179, 0xcc899961, 0x846ee454), Working(0xc2606d6d, 0x9dc68b63, 0xe1f20c33, 0xfe777bbf, 0xe1257970, 0x8ada8930, 0xb0638179, 0xcc899961));
    OneRound(v, w, 22, Value(0x12dcbfdb), Working(0xc2606d6d, 0x9dc68b63, 0xe1f20c33, 0xfe777bbf, 0xe1257970, 0x8ada8930, 0xb0638179, 0xcc899961), Working(0xa7a3623f, 0xc2606d6d, 0x9dc68b63, 0xe1f20c33, 0x49f5114a, 0xe1257970, 0x8ada8930, 0xb0638179));
    OneRound(v, w, 23, Value(0xe2e2c38e), Working(0xa7a3623f, 0xc2606d6d, 0x9dc68b63, 0xe1f20c33, 0x49f5114a, 0xe1257970, 0x8ada8930, 0xb0638179), Working(0xc5d53d8d, 0xa7a3623f, 0xc2606d6d, 0x9dc68b63, 0xaa47c347, 0x49f5114a, 0xe1257970, 0x8ada8930));
  }

  lemma RoundFacts24()
    ensures RoundGives(24, Working(0xc5d53d8d, 0xa7a3623f, 0xc2606d6d, 0x9dc68b63, 0xaa47c347, 0x49f5114a, 0xe1257970, 0x8ada8930), Value(0xc8215c1a), Working(0x1c2c2838, 0xc5d53d8d, 0xa7a3623f, 0xc2606d6d, 0x2823ef91, 0xaa47c347, 0x49f5114a, 0xe1257970))
    ensures RoundGives(25, Working(0x1c2c2838, 0xc5d53d8d, 0xa7a3623f, 0xc2606d6d, 0x2823ef91, 0xaa47c347, 0x49f5114a, 0xe1257970), Value(0xb73679a2), Working(0xcde8037d, 0x1c2c2838, 0xc5d53d8d, 0xa7a3623f, 0x14383d8e, 0x2823ef91, 0xaa47c347, 0x49f5114a))
    ensures RoundGives(26, Working(0xcde8037d, 0x1c2c2838, 0xc5d53d8d, 0xa7a3623f, 0x14383d8e, 0x2823ef91, 0xaa47c347, 0x49f5114a), Value(0xe5bc3909), Working(0xb62ec4bc, 0xcde8037d, 0x1c2c2838, 0xc5d53d8d, 0xc74c6516, 0x14383d8e, 0x2823ef91, 0xaa47c347))
    ensures RoundGives(27, Working(0xb62ec4bc, 0xcde8037d, 0x1c2c2838, 0xc5d53d8d, 0xc74c6516, 0x14383d8e, 0x2823ef91, 0xaa47c347), Value(0x32663c5b), Working(0x77d37528, 0xb62ec4bc, 0xcde8037d, 0x1c2c2838, 0xedffbff8, 0xc74c6516, 0x14383d8e, 0x2823ef91))
    ensures RoundGives(28, Working(0x77d37528, 0xb62ec4bc, 0xcde8037d, 0x1c2c2838, 0xedffbff8, 0xc74c6516, 0x14383d8e, 0x2823ef91), Value(0x9d209d67), Working(0x363482c9, 0x77d37528, 0xb62ec4bc, 0xcde8037d, 0x6112a3b7, 0xedffbff8, 0xc74c6516, 0x14383d8e))
    ensures RoundGives(29, Working(0x363482c9, 0x77d37528, 0xb62ec4bc, 0xcde8037d, 0x6112a3b7, 0xedffbff8, 0xc74c6516, 0x14383d8e), Value(0xec8726cb), Working(0xa0060b30, 0x363482c9, 0x77d37528, 0xb62ec4bc, 0xade79437, 0x6112a3b7, 0xedffbff8, 0xc74c6516))
    ensures RoundGives(30, Working(0xa0060b30, 0x363482c9, 0x77d37528, 0xb62ec4bc, 0xade79437, 0x6112a3b7, 0xedffbff8, 0xc74c6516), Value(0x702138a4), Working(0xea992a22, 0xa0060b30, 0x363482c9, 0x77d37528, 0x0109ab3a, 0xade79437, 0x6112a3b7, 0xedffbff8))
    ensures RoundGives(31, Working(0xea992a22, 0xa0060b30, 0x363482c9, 0x77d37528, 0x0109ab3a, 0xade79437, 0x6112a3b7, 0xedffbff8), Value(0xd3b7973b), Working(0x73b33bf5, 0xea992a22, 0xa0060b30, 0x363482c9, 0xba591112, 0x0109ab3a, 0xade79437, 0x6112a3b7))
  {
    var constants := ROUND_CONSTANTS;
    assert constants[24] == 0x983e5152 && constants[25] == 0xa831c66d && constants[26] == 0xb00327c8 && constants[27] == 0xbf597fc7 && constants[28] == 0xc6e00bf3 && constants[29] == 0xd5a79147 && constants[30] == 0x06ca6351 && constants[31] == 0x14292967;
  }

  lemma Rounds24(v: seq<Working>, w: seq<Word>)
    requires Worked(v, w) && IsState(v, 24, Working(0xc5d53d8d, 0xa7a3623f, 0xc2606d6d, 0x9dc68b63, 0xaa47c347, 0x49f5114a, 0xe1257970, 0x8ada8930))
    requires EightWords(w, 24, Value(0xc8215c1a), Value(0xb73679a2), Value(0xe5bc3909), Value(0x32663c5b), Value(0x9d209d67), Value(0xec8726cb), Value(0x702138a4), Value(0xd3b7973b))
    ensures IsState(v, 32, Working(0x73b33bf5, 0xea992a22, 0xa0060b30, 0x363482c9, 0xba591112, 0x0109ab3a, 0xade79437, 0x6112a3b7))
  {
    hide Worked, Round, RoundGives, IsWord, IsState;
    RoundFacts24();
    OneRound(v, w, 24, Value(0xc8215c1a), Working(0xc5d53d8d, 0xa7a3623f, 0xc2606d6d, 0x9dc68b63, 0xaa47c347, 0x49f5114a, 0xe1257970, 0x8ada8930), Working(0x1c2c2838, 0xc5d53d8d, 0xa7a3623f, 0xc2606d6d, 0x2823ef91, 0xaa47c347, 0x49f5114a, 0xe1257970));
    OneRound(v, w, 25, Value(0xb73679a2), Working(0x1c2c2838, 0xc5d53d8d, 0xa7a3623f, 0xc2606d6d, 0x2823ef91, 0xaa47c347, 0x49f5114a, 0xe1257970), Working(0xcde8037d, 0x1c2c2838, 0xc5d53d8d, 0xa7a3623f, 0x14383d8e, 0x2823ef91, 0xaa47c347, 0x49f5114a));
    OneRound(v, w, 26, Value(0xe5bc3909), Working(0xcde8037d, 0x1c2c2838, 0xc5d53d8d, 0xa7a3623f, 0x14383d8e, 0x2823ef91, 0xaa47c347, 0x49f5114a), Working(0xb62ec4bc, 0xcde8037d, 0x1c2c2838, 0xc5d53d8d, 0xc74c6516, 0x14383d8e, 0x2823ef91, 0xaa47c347));
    OneRound(v, w, 27, Value(0x32663c5b), Working(0xb62ec4bc, 0xcde8037d, 0x1c2c2838, 0xc5d53d8d, 0xc74c6516, 0x14383d8e, 0x2823ef91, 0xaa47c347), Working(0x77d37528, 0xb62ec4bc, 0xcde8037d, 0x1c2c2838, 0xedffbff8, 0xc74c6516, 0x14383d8e, 0x2823ef91));
    OneRound(v, w, 28, Value(0x9d209d67), Working(0x77d37528, 0xb62ec4bc, 0xcde8037d, 0x1c2c2838, 0xedffbff8, 0xc74c6516, 0x14383d8e, 0x2823ef91), Working(0x363482c9, 0x77d37528, 0xb62ec4bc, 0xcde8037d, 0x6112a3b7, 0xedffbff8, 0xc74c6516, 0x14383d8e));
    OneRound(v, w, 29, Value(0xec8726cb), Working(0x363482c9, 0x77d37528, 0xb62ec4bc, 0xcde8037d, 0x6112a3b7, 0xedffbff8, 0xc74c6516, 0x14383d8e), Working(0xa0060b30, 0x363482c9, 0x77d37528, 0xb62ec4bc, 0xade79437, 0x6112a3b7, 0xedffbff8, 0xc74c6516));
    OneRound(v, w, 30, Value(0x702138a4), Working(0xa0060b30, 0x363482c9, 0x77d37528, 0xb62ec4bc, 0xade79437, 0x6112a3b7, 0xedffbff8, 0xc74c6516), Working(0xea992a22, 0xa0060b30, 0x363482c9, 0x77d37528, 0x0109ab3a, 0xade79437, 0x6112a3b7, 0xedffbff8));
    OneRound(v, w, 31, Value(0xd3b7973b), Working(0xea992a22, 0xa0060b30, 0x363482c9, 0x77d37528, 0x0109ab3a, 0xade79437, 0x6112a3b7, 0xedffbff8), Working(0x73b33bf5, 0xea992a22, 0xa0060b30, 0x363482c9, 0xba591112, 0x0109ab3a, 0xade79437, 0x6112a3b7));
  }

  lemma RoundFacts32()
    ensures RoundGives(32, Working(0x73b33bf5, 0xea992a22, 0xa0060b30, 0x363482c9, 0xba591112, 0x0109ab3a, 0xade79437, 0x6112a3b7), Value(0x93f5997f), Working(0x98e12507, 0x73b33bf5, 0xea992a22, 0xa0060b30, 0x9cd9f5f6, 0xba591112, 0x0109ab3a, 0xade79437))
    ensures RoundGives(33, Working(0x98e12507, 0x73b33bf5, 0xea992a22, 0xa0060b30, 0x9cd9f5f6, 0xba591112, 0x0109ab3a, 0xade79437), Value(0x3b68ba73), Working(0xfe604df5, 0x98e12507, 0x73b33bf5, 0xea992a22, 0x59249dd3, 0x9cd9f5f6, 0xba591112, 0x0109ab3a))
    ensures RoundGives(34, Working(0xfe604df5, 0x98e12507, 0x73b33bf5, 0xea992a22, 0x59249dd3, 0x9cd9f5f6, 0xba591112, 0x0109ab3a), Value(0xaff4ffc1), Working(0xa9a7738c, 0xfe604df5, 0x98e12507, 0x73b33bf5, 0x085f3833, 0x59249dd3, 0x9cd9f5f6, 0xba591112))
    ensures RoundGives(35, Working(0xa9a7738c, 0xfe604df5, 0x98e12507, 0x73b33bf5, 0x085f3833, 0x59249dd3, 0x9cd9f5f6, 0xba591112), Value(0xf10a5c62), Working(0x65a0cfe4, 0xa9a7738c, 0xfe604df5, 0x98e12507, 0xf4b002d6, 0x085f3833, 0x59249dd3, 0x9cd9f5f6))
    ensures RoundGives(36, Working(0x65a0cfe4, 0xa9a7738c, 0xfe604df5, 0x98e12507, 0xf4b002d6, 0x085f3833, 0x59249dd3, 0x9cd9f5f6), Value(0x0a8b3996), Working(0x41a65cb1, 0x65a0cfe4, 0xa9a7738c, 0xfe604df5, 0x0772a26b, 0xf4b002d6, 0x085f3833, 0x59249dd3))
    ensures RoundGives(37, Working(0x41a65cb1, 0x65a0cfe4, 0xa9a7738c, 0xfe604df5, 0x0772a26b, 0xf4b002d6, 0x085f3833, 0x59249dd3), Value(0x72af830a), Working(0x34df1604, 0x41a65cb1, 0x65a0cfe4, 0xa9a7738c, 0xa507a53d, 0x0772a26b, 0xf4b002d6, 0x085f3833))
    ensures RoundGives(38, Working(0x34df1604, 0x41a65cb1, 0x65a0cfe4, 0xa9a7738c, 0xa507a53d, 0x0772a26b, 0xf4b002d6, 0x085f3833), Value(0x9409e33e), Working(0x6dc57a8a, 0x34df1604, 0x41a65cb1, 0x65a0cfe4, 0xf0781bc8, 0xa507a53d, 0x0772a26b, 0xf4b002d6))
    ensures RoundGives(39, Working(0x6dc57a8a, 0x34df1604, 0x41a65cb1, 0x65a0cfe4, 0xf0781bc8, 0xa507a53d, 0x0772a26b, 0xf4b002d6), Value(0x24641522), Working(0x79ea687a, 0x6dc57a8a, 0x34df1604, 0x41a65cb1, 0x1efbc0a0, 0xf0781bc8, 0xa507a53d, 0x0772a26b))
  {
    var constants := ROUND_CONSTANTS;
    assert constants[32] == 0x27b70a85 && constants[33] == 0x2e1b2138 && constants[34] == 0x4d2c6dfc && constants[35] == 0x53380d13 && constants[36] == 0x650a7354 && constants[37] == 0x766a0abb && constants[38] == 0x81c2c92e && constants[39] == 0x92722c85;
  }

  lemma Rounds32(v: seq<Working>, w: seq<Word>)
    requires Worked(v, w) && IsState(v, 32, Working(0x73b33bf5, 0xea992a22, 0xa0060b30, 0x363482c9, 0xba591112, 0x0109ab3a, 0xade79437, 0x6112a3b7))
    requires EightWords(w, 32, Value(0x93f5997f), Value(0x3b68ba73), Value(0xaff4ffc1), Value(0xf10a5c62), Value(0x0a8b3996), Value(0x72af830a), Value(0x9409e33e), Value(0x24641522))
    ensures IsState(v, 40, Working(0x79ea687a, 0x6dc57a8a, 0x34df1604, 0x41a65cb1, 0x1efbc0a0, 0xf0781bc8, 0xa507a53d, 0x0772a26b))
  {
    hide Worked, Round, RoundGives, IsWord, IsState;
    RoundFacts32();
    OneRound(v, w, 32, Value(0x93f5997f), Working(0x73b33bf5, 0xea992a22, 0xa0060b30, 0x363482c9, 0xba591112, 0x0109ab3a, 0xade79437, 0x6112a3b7), Working(0x98e12507, 0x73b33bf5, 0xea992a22, 0xa0060b30, 0x9cd9f5f6, 0xba591112, 0x0109ab3a, 0xade79437));
    OneRound(v, w, 33, Value(0x3b68ba73), Working(0x98e12507, 0x73b33bf5, 0xea992a22, 0xa0060b30, 0x9cd9f5f6, 0xba591112, 0x0109ab3a, 0xade79437), Working(0xfe604df5, 0x98e12507, 0x73b33bf5, 0xea992a22, 0x59249dd3, 0x9cd9f5f6, 0xba591112, 0x0109ab3a));
    OneRound(v, w, 34, Value(0xaff4ffc1), Working(0xfe604df5, 0x98e12507, 0x73b33bf5, 0xea992a22, 0x59249dd3, 0x9cd9f5f6, 0xba591112, 0x0109ab3a), Working(0xa9a7738c, 0xfe604df5, 0x98e12507, 0x73b33bf5, 0x085f3833, 0x59249dd3, 0x9cd9f5f6, 0xba591112));
    OneRound(v, w, 35, Value(0xf10a5c62), Working(0xa9a7738c, 0xfe604df5, 0x98e12507, 0x73b33bf5, 0x085f3833, 0x59249dd3, 0x9cd9f5f6, 0xba591112), Working(0x65a0cfe4, 0xa9a7738c, 0xfe604df5, 0x98e12507, 0xf4b002d6, 0x085f3833, 0x59249dd3, 0x9cd9f5f6));
    OneRound(v, w, 36, Value(0x0a8b3996), Working(0x65a0cfe4, 0xa9a7738c, 0xfe604df5, 0x98e12507, 0xf4b002d6, 0x085f3833, 0x59249dd3, 0x9cd9f5f6), Working(0x41a65cb1, 0x65a0cfe4, 0xa9a7738c, 0xfe604df5, 0x0772a26b, 0xf4b002d6, 0x085f3833, 0x59249dd3));
    OneRound(v, w, 37, Value(0x72af830a), Working(0x41a65cb1, 0x65a0cfe4, 0xa9a7738c, 0xfe604df5, 0x0772a26b, 0xf4b002d6, 0x085f3833, 0x59249dd3), Working(0x34df1604, 0x41a65cb1, 0x65a0cfe4, 0xa9a7738c, 0xa507a53d, 0x0772a26b, 0xf4b002d6, 0x085f3833));
    OneRound(v, w, 38, Value(0x9409e33e), Working(0x34df1604, 0x41a65cb1, 0x65a0cfe4, 0xa9a7738c, 0xa507a53d, 0x0772a26b, 0xf4b002d6, 0x085f3833), Working(0x6dc57a8a, 0x34df1604, 0x41a65cb1, 0x65a0cfe4, 0xf0781bc8, 0xa507a53d, 0x0772a26b, 0xf4b002d6));
    OneRound(v, w, 39, Value(0x24641522), Working(0x6dc57a8a, 0x34df1604, 0x41a65cb1, 0x65a0cfe4, 0xf0781bc8, 0xa507a53d, 0x0772a26b, 0xf4b002d6), Working(0x79ea687a, 0x6dc57a8a, 0x34df1604, 0x41a65cb1, 0x1efbc0a0, 0xf0781bc8, 0xa507a53d, 0x0772a26b));
  }

  lemma RoundFacts40()
    ensures RoundGives(40, Working(0x79ea687a, 0x6dc57a8a, 0x34df1604, 0x41a65cb1, 0x1efbc0a0, 0xf0781bc8, 0xa507a53d, 0x0772a26b), Value(0x9f47bf94), Working(0xd6670766, 0x79ea687a, 0x6dc57a8a, 0x34df1604, 0x26352d63, 0x1efbc0a0, 0xf0781bc8, 0xa507a53d))
    ensures RoundGives(41, Working(0xd6670766, 0x79ea687a, 0x6dc57a8a, 0x34df1604, 0x26352d63, 0x1efbc0a0, 0xf0781bc8, 0xa507a53d), Value(0xf0a64f5a), Working(0xdf46652f, 0xd6670766, 0x79ea687a, 0x6dc57a8a, 0x838b2711, 0x26352d63, 0x1efbc0a0, 0xf0781bc8))
    ensures RoundGives(42, Working(0xdf46652f, 0xd6670766, 0x79ea687a, 0x6dc57a8a, 0x838b2711, 0x26352d63, 0x1efbc0a0, 0xf0781bc8), Value(0x3e246a79), Working(0x17aa0dfe, 0xdf46652f, 0xd6670766, 0x79ea687a, 0xdecd4715, 0x838b2711, 0x26352d63, 0x1efbc0a0))
    ensures RoundGives(43, Working(0x17aa0dfe, 0xdf46652f, 0xd6670766, 0x79ea687a, 0xdecd4715, 0x838b2711, 0x26352d63, 0x1efbc0a0), Value(0x27333ba3), Working(0x9d4baf93, 0x17aa0dfe, 0xdf46652f, 0xd6670766, 0xfda24c2e, 0xdecd4715, 0x838b2711, 0x26352d63))
    ensures RoundGives(44, Working(0x9d4baf93, 0x17aa0dfe, 0xdf46652f, 0xd6670766, 0xfda24c2e, 0xdecd4715, 0x838b2711, 0x26352d63), Value(0x0c4763f2), Working(0x26628815, 0x9d4baf93, 0x17aa0dfe, 0xdf46652f, 0xa80f11f0, 0xfda24c2e, 0xdecd4715, 0x838b2711))
    ensures RoundGives(45, Working(0x26628815, 0x9d4baf93, 0x17aa0dfe, 0xdf46652f, 0xa80f11f0, 0xfda24c2e, 0xdecd4715, 0x838b2711), Value(0x840abf27), Working(0x72ab4b91, 0x26628815, 0x9d4baf93, 0x17aa0dfe, 0xb7755da1, 0xa80f11f0, 0xfda24c2e, 0xdecd4715))
    ensures RoundGives(46, Working(0x72ab4b91, 0x26628815, 0x9d4baf93, 0x17aa0dfe, 0xb7755da1, 0xa80f11f0, 0xfda24c2e, 0xdecd4715), Value(0x7a290d5d), Working(0xa14c14b0, 0x72ab4b91, 0x26628815, 0x9d4baf93, 0xd57b94a9, 0xb7755da1, 0xa80f11f0, 0xfda24c2e))
    ensures RoundGives(47, Working(0xa14c14b0, 0x72ab4b91, 0x26628815, 0x9d4baf93, 0xd57b94a9, 0xb7755da1, 0xa80f11f0, 0xfda24c2e), Value(0x065c43da), Working(0x4172328d, 0xa14c14b0, 0x72ab4b91, 0x26628815, 0xfecf0bc6, 0xd57b94a9, 0xb7755da1, 0xa80f11f0))
  {
    var constants := ROUND_CONSTANTS;
    assert constants[40] == 0xa2bfe8a1 && constants[41] == 0xa81a664b && constants[42] == 0xc24b8b70 && constants[43] == 0xc76c51a3 && constants[44] == 0xd192e819 && constants[45] == 0xd6990624 && constants[46] == 0xf40e3585 && constants[47] == 0x106aa070;
  }

  lemma Rounds40(v: seq<Working>, w: seq<Word>)
    requires Worked(v, w) && IsState(v, 40, Working(0x79ea687a, 0x6dc57a8a, 0x34df1604, 0x41a65cb1, 0x1efbc0a0, 0xf0781bc8, 0xa507a53d, 0x0772a26b))
    requires EightWords(w, 40, Value(0x9f47bf94), Value(0xf0a64f5a), Value(0x3e246a79), Value(0x27333ba3), Value(0x0c4763f2), Value(0x840abf27), Value(0x7a290d5d), Value(0x065c43da))
    ensures IsState(v, 48, Working(0x4172328d, 0xa14c14b0, 0x72ab4b91, 0x26628815, 0xfecf0bc6, 0xd57b94a9, 0xb7755da1, 0xa80f11f0))
  {
    hide Worked, Round, RoundGives, IsWord, IsState;
    RoundFacts40();
    OneRound(v, w, 40, Value(0x9f47bf94), Working(0x79ea687a, 0x6dc57a8a, 0x34df1604, 0x41a65cb1, 0x1efbc0a0, 0xf0781bc8, 0xa507a53d, 0x0772a26b), Working(0xd6670766, 0x79ea687a, 0x6dc57a8a, 0x34df1604, 0x26352d63, 0x1efbc0a0, 0xf0781bc8, 0xa507a53d));
    OneRound(v, w, 41, Value(0xf0a64f5a), Working(0xd6670766, 0x79ea687a, 0x6dc57a8a, 0x34df1604, 0x26352d63, 0x1efbc0a0, 0xf0781bc8, 0xa507a53d), Working(0xdf46652f, 0xd6670766, 0x79ea687a, 0x6dc57a8a, 0x838b2711, 0x26352d63, 0x1efbc0a0, 0xf0781bc8));
    OneRound(v, w, 42, Value(0x3e246a79), Working(0xdf46652f, 0xd6670766, 0x79ea687a, 0x6dc57a8a, 0x838b2711, 0x26352d63, 0x1efbc0a0, 0xf0781bc8), Working(0x17aa0dfe, 0xdf46652f, 0xd6670766, 0x79ea687a, 0xdecd4715, 0x838b2711, 0x26352d63, 0x1efbc0a0));
    OneRound(v, w, 43, Value(0x27333ba3), Working(0x17aa0dfe, 0xdf46652f, 0xd6670766, 0x79ea687a, 0xdecd4715, 0x838b2711, 0x26352d63, 0x1efbc0a0), Working(0x9d4baf93, 0x17aa0dfe, 0xdf46652f, 0xd6670766, 0xfda24c2e, 0xdecd4715, 0x838b2711, 0x26352d63));
    OneRound(v, w, 44, Value(0x0c4763f2), Working(0x9d4baf93, 0x17aa0dfe, 0xdf46652f, 0xd6670766, 0xfda24c2e, 0xdecd4715, 0x838b2711, 0x26352d63), Working(0x26628815, 0x9d4baf93, 0x17aa0dfe, 0xdf46652f, 0xa80f11f0, 0xfda24c2e, 0xdecd4715, 0x838b2711));
    OneRound(v, w, 45, Value(0x840abf27), Working(0x26628815, 0x9d4baf93, 0x17aa0dfe, 0xdf46652f, 0xa80f11f0, 0xfda24c2e, 0xdecd4715, 0x838b2711), Working(0x72ab4b91, 0x26628815, 0x9d4baf93, 0x17aa0dfe, 0xb7755da1, 0xa80f11f0, 0xfda24c2e, 0xdecd4715));
    OneRound(v, w, 46, Value(0x7a290d5d), Working(0x72ab4b91, 0x26628815, 0x9d4baf93, 0x17aa0dfe, 0xb7755da1, 0xa80f11f0, 0xfda24c2e, 0xdecd4715), Working(0xa14c14b0, 0x72ab4b91, 0x26628815, 0x9d4baf93, 0xd57b94a9, 0xb7755da1, 0xa80f11f0, 0xfda24c2e));
    OneRound(v, w, 47, Value(0x065c43da), Working(0xa14c14b0, 0x72ab4b91, 0x26628815, 0x9d4baf93, 0xd57b94a9, 0xb7755da1, 0xa80f11f0, 0xfda24c2e), Working(0x4172328d, 0xa14c14b0, 0x72ab4b91, 0x26628815, 0xfecf0bc6, 0xd57b94a9, 0xb7755da1, 0xa80f11f0));
  }

  lemma RoundFacts48()
    ensures RoundGives(48, Working(0x4172328d, 0xa14c14b0, 0x72ab4b91, 0x26628815, 0xfecf0bc6, 0xd57b94a9, 0xb7755da1, 0xa80f11f0), Value(0xfb3e89cb), Working(0x05757ceb, 0x4172328d, 0xa14c14b0, 0x72ab4b91, 0xbd714038, 0xfecf0bc6, 0xd57b94a9, 0xb7755da1))
    ensures RoundGives(49, Working(0x05757ceb, 0x4172328d, 0xa14c14b0, 0x72ab4b91, 0xbd714038, 0xfecf0bc6, 0xd57b94a9, 0xb7755da1), Value(0xcc7617db), Working(0xf11bfaa8, 0x05757ceb, 0x4172328d, 0xa14c14b0, 0x6e5c390c, 0xbd714038, 0xfecf0bc6, 0xd57b94a9))
    ensures RoundGives(50, Working(0xf11bfaa8, 0x05757ceb, 0x4172328d, 0xa14c14b0, 0x6e5c390c, 0xbd714038, 0xfecf0bc6, 0xd57b94a9), Value(0xb9e66c34), Working(0x7a0508a1, 0xf11bfaa8, 0x05757ceb, 0x4172328d, 0x52f1ccf7, 0x6e5c390c, 0xbd714038, 0xfecf0bc6))
    ensures RoundGives(51, Working(0x7a0508a1, 0xf11bfaa8, 0x05757ceb, 0x4172328d, 0x52f1ccf7, 0x6e5c390c, 0xbd714038, 0xfecf0bc6), Value(0xa9993667), Working(0x886e7a22, 0x7a0508a1, 0xf11bfaa8, 0x05757ceb, 0x49231c1e, 0x52f1ccf7, 0x6e5c390c, 0xbd714038))
    ensures RoundGives(52, Working(0x886e7a22, 0x7a0508a1, 0xf11bfaa8, 0x05757ceb, 0x49231c1e, 0x52f1ccf7, 0x6e5c390c, 0xbd714038), Value(0x84badedd), Working(0x101fd28f, 0x886e7a22, 0x7a0508a1, 0xf11bfaa8, 0x529e7d00, 0x49231c1e, 0x52f1ccf7, 0x6e5c390c))
    ensures RoundGives(53, Working(0x101fd28f, 0x886e7a22, 0x7a0508a1, 0xf11bfaa8, 0x529e7d00, 0x49231c1e, 0x52f1ccf7, 0x6e5c390c), Value(0xc21462bc), Working(0xf5702fdb, 0x101fd28f, 0x886e7a22, 0x7a0508a1, 0x9f4787c3, 0x529e7d00, 0x49231c1e, 0x52f1ccf7))
    ensures RoundGives(54, Working(0xf5702fdb, 0x101fd28f, 0x886e7a22, 0x7a0508a1, 0x9f4787c3, 0x529e7d00, 0x49231c1e, 0x52f1ccf7), Value(0x1487472c), Working(0x3ec45cdb, 0xf5702fdb, 0x101fd28f, 0x886e7a22, 0xe50e1b4f, 0x9f4787c3, 0x529e7d00, 0x49231c1e))
    ensures RoundGives(55, Working(0x3ec45cdb, 0xf5702fdb, 0x101fd28f, 0x886e7a22, 0xe50e1b4f, 0x9f4787c3, 0x529e7d00, 0x49231c1e), Value(0xb20f7a99), Working(0x38cc9913, 0x3ec45cdb, 0xf5702fdb, 0x101fd28f, 0x54cb266b, 0xe50e1b4f, 0x9f4787c3, 0x529e7d00))
  {
    var constants := ROUND_CONSTANTS;
    assert constants[48] == 0x19a4c116 && constants[49] == 0x1e376c08 && constants[50] == 0x2748774c && constants[51] == 0x34b0bcb5 && constants[52] == 0x391c0cb3 && constants[53] == 0x4ed8aa4a && constants[54] == 0x5b9cca4f && constants[55] == 0x682e6ff3;
  }

  lemma Rounds48(v: seq<Working>, w: seq<Word>)
    requires Worked(v, w) && IsState(v, 48, Working(0x4172328d, 0xa14c14b0, 0x72ab4b91, 0x26628815, 0xfecf0bc6, 0xd57b94a9, 0xb7755da1, 0xa80f11f0))
    requires EightWords(w, 48, Value(0xfb3e89cb), Value(0xcc7617db), Value(0xb9e66c34), Value(0xa9993667), Value(0x84badedd), Value(0xc21462bc), Value(0x1487472c), Value(0xb20f7a99))
    ensures IsState(v, 56, Working(0x38cc9913, 0x3ec45cdb, 0xf5702fdb, 0x101fd28f, 0x54cb266b, 0xe50e1b4f, 0x9f4787c3, 0x529e7d00))
  {
    hide Worked, Round, RoundGives, IsWord, IsState;
    RoundFacts48();
    OneRound(v, w, 48, Value(0xfb3e89cb), Working(0x4172328d, 0xa14c14b0, 0x72ab4b91, 0x26628815, 0xfecf0bc6, 0xd57b94a9, 0xb7755da1, 0xa80f11f0), Working(0x05757ceb, 0x4172328d, 0xa14c14b0, 0x72ab4b91, 0xbd714038, 0xfecf0bc6, 0xd57b94a9, 0xb7755da1));
    OneRound(v, w, 49, Value(0xcc7617db), Working(0x05757ceb, 0x4172328d, 0xa14c14b0, 0x72ab4b91, 0xbd714038, 0xfecf0bc6, 0xd57b94a9, 0xb7755da1), Working(0xf11bfaa8, 0x05757ceb, 0x4172328d, 0xa14c14b0, 0x6e5c390c, 0xbd714038, 0xfecf0bc6, 0xd57b94a9));
    OneRound(v, w, 50, Value(0xb9e66c34), Working(0xf11bfaa8, 0x05757ceb, 0x4172328d, 0xa14c14b0, 0x6e5c390c, 0xbd714038, 0xfecf0bc6, 0xd57b94a9), Working(0x7a0508a1, 0xf11bfaa8, 0x05757ceb, 0x4172328d, 0x52f1ccf7, 0x6e5c390c, 0xbd714038, 0xfecf0bc6));
    OneRound(v, w, 51, Value(0xa9993667), Working(0x7a0508a1, 0xf11bfaa8, 0x05757ceb, 0x4172328d, 0x52f1ccf7, 0x6e5c390c, 0xbd714038, 0xfecf0bc6), Working(0x886e7a22, 0x7a0508a1, 0xf11bfaa8, 0x05757ceb, 0x49231c1e, 0x52f1ccf7, 0x6e5c390c, 0xbd714038));
    OneRound(v, w, 52, Value(0x84badedd), Working(0x886e7a22, 0x7a0508a1, 0xf11bfaa8, 0x05757ceb, 0x49231c1e, 0x52f1ccf7, 0x6e5c390c, 0xbd714038), Working(0x101fd28f, 0x886e7a22, 0x7a0508a1, 0xf11bfaa8, 0x529e7d00, 0x49231c1e, 0x52f1ccf7, 0x6e5c390c));
    OneRound(v, w, 53, Value(0xc21462bc), Working(0x101fd28f, 0x886e7a22, 0x7a0508a1, 0xf11bfaa8, 0x529e7d00, 0x49231c1e, 0x52f1ccf7, 0x6e5c390c), Working(0xf5702fdb, 0x101fd28f, 0x886e7a22, 0x7a0508a1, 0x9f4787c3, 0x529e7d00, 0x49231c1e, 0x52f1ccf7));
    OneRound(v, w, 54, Value(0x1487472c), Working(0xf5702fdb, 0x101fd28f, 0x886e7a22, 0x7a0508a1, 0x9f4787c3, 0x529e7d00, 0x49231c1e, 0x52f1ccf7), Working(0x3ec45cdb, 0xf5702fdb, 0x101fd28f, 0x886e7a22, 0xe50e1b4f, 0x9f4787c3, 0x529e7d00, 0x49231c1e));
    OneRound(v, w, 55, Value(0xb20f7a99), Working(0x3ec45cdb, 0xf5702fdb, 0x101fd28f, 0x886e7a22, 0xe50e1b4f, 0x9f4787c3, 0x529e7d00, 0x49231c1e), Working(0x38cc9913, 0x3ec45cdb, 0xf5702fdb, 0x101fd28f, 0x54cb266b, 0xe50e1b4f, 0x9f4787c3, 0x529e7d00));
  }

  lemma RoundFacts56()
    ensures RoundGives(56, Working(0x38cc9913, 0x3ec45cdb, 0xf5702fdb, 0x101fd28f, 0x54cb266b, 0xe50e1b4f, 0x9f4787c3, 0x529e7d00), Value(0xef57b9cd), Working(0xfcd1887b, 0x38cc9913, 0x3ec45cdb, 0xf5702fdb, 0x9b5e906c, 0x54cb266b, 0xe50e1b4f, 0x9f4787c3))
    ensures RoundGives(57, Working(0xfcd1887b, 0x38cc9913, 0x3ec45cdb, 0xf5702fdb, 0x9b5e906c, 0x54cb266b, 0xe50e1b4f, 0x9f4787c3), Value(0xebe6b238), Working(0xc062d46f, 0xfcd1887b, 0x38cc9913, 0x3ec45cdb, 0x7e44008e, 0x9b5e906c, 0x54cb266b, 0xe50e1b4f))
    ensures RoundGives(58, Working(0xc062d46f, 0xfcd1887b, 0x38cc9913, 0x3ec45cdb, 0x7e44008e, 0x9b5e906c, 0x54cb266b, 0xe50e1b4f), Value(0x9fe3095e), Working(0xffb70472, 0xc062d46f, 0xfcd1887b, 0x38cc9913, 0x6d83bfc6, 0x7e44008e, 0x9b5e906c, 0x54cb266b))
    ensures RoundGives(59, Working(0xffb70472, 0xc062d46f, 0xfcd1887b, 0x38cc9913, 0x6d83bfc6, 0x7e44008e, 0x9b5e906c, 0x54cb266b), Value(0x78bc8d4b), Working(0xb6ae8fff, 0xffb70472, 0xc062d46f, 0xfcd1887b, 0xb21bad3d, 0x6d83bfc6, 0x7e44008e, 0x9b5e906c))
    ensures RoundGives(60, Working(0xb6ae8fff, 0xffb70472, 0xc062d46f, 0xfcd1887b, 0xb21bad3d, 0x6d83bfc6, 0x7e44008e, 0x9b5e906c), Value(0xa43fcf15), Working(0xb85e2ce9, 0xb6ae8fff, 0xffb70472, 0xc062d46f, 0x961f4894, 0xb21bad3d, 0x6d83bfc6, 0x7e44008e))
    ensures RoundGives(61, Working(0xb85e2ce9, 0xb6ae8fff, 0xffb70472, 0xc062d46f, 0x961f4894, 0xb21bad3d, 0x6d83bfc6, 0x7e44008e), Value(0x668b2ff8), Working(0x04d24d6c, 0xb85e2ce9, 0xb6ae8fff, 0xffb70472, 0x948d25b6, 0x961f4894, 0xb21bad3d, 0x6d83bfc6))
    ensures RoundGives(62, Working(0x04d24d6c, 0xb85e2ce9, 0xb6ae8fff, 0xffb70472, 0x948d25b6, 0x961f4894, 0xb21bad3d, 0x6d83bfc6), Value(0xeeaba2cc), Working(0xd39a2165, 0x04d24d6c, 0xb85e2ce9, 0xb6ae8fff, 0xfb121210, 0x948d25b6, 0x961f4894, 0xb21bad3d))
    ensures RoundGives(63, Working(0xd39a2165, 0x04d24d6c, 0xb85e2ce9, 0xb6ae8fff, 0xfb121210, 0x948d25b6, 0x961f4894, 0xb21bad3d), Value(0x12b1edeb), Working(0x506e3058, 0xd39a2165, 0x04d24d6c, 0xb85e2ce9, 0x5ef50f24, 0xfb121210, 0x948d25b6, 0x961f4894))
  {
    var constants := ROUND_CONSTANTS;
    assert constants[56] == 0x748f82ee && constants[57] == 0x78a5636f && constants[58] == 0x84c87814 && constants[59] == 0x8cc70208 && constants[60] == 0x90befffa && constants[61] == 0xa4506ceb && constants[62] == 0xbef9a3f7 && constants[63] == 0xc67178f2;
  }

  lemma Rounds56(v: seq<Working>, w: seq<Word>)
    requires Worked(v, w) && IsState(v, 56, Working(0x38cc9913, 0x3ec45cdb, 0xf5702fdb, 0x101fd28f, 0x54cb266b, 0xe50e1b4f, 0x9f4787c3, 0x529e7d00))
    requires EightWords(w, 56, Value(0xef57b9cd), Value(0xebe6b238), Value(0x9fe3095e), Value(0x78bc8d4b), Value(0xa43fcf15), Value(0x668b2ff8), Value(0xeeaba2cc), Value(0x12b1edeb))
    ensures IsState(v, 64, Working(0x506e3058, 0xd39a2165, 0x04d24d6c, 0xb85e2ce9, 0x5ef50f24, 0xfb121210, 0x948d25b6, 0x961f4894))
  {
    hide Worked, Round, RoundGives, IsWord, IsState;
    RoundFacts56();
    OneRound(v, w, 56, Value(0xef57b9cd), Working(0x38cc9913, 0x3ec45cdb, 0xf5702fdb, 0x101fd28f, 0x54cb266b, 0xe50e1b4f, 0x9f4787c3, 0x529e7d00), Working(0xfcd1887b, 0x38cc9913, 0x3ec45cdb, 0xf5702fdb, 0x9b5e906c, 0x54cb266b, 0xe50e1b4f, 0x9f4787c3));
    OneRound(v, w, 57, Value(0xebe6b238), Working(0xfcd1887b, 0x38cc9913, 0x3ec45cdb, 0xf5702fdb, 0x9b5e906c, 0x54cb266b, 0xe50e1b4f, 0x9f4787c3), Working(0xc062d46f, 0xfcd1887b, 0x38cc9913, 0x3ec45cdb, 0x7e44008e, 0x9b5e906c, 0x54cb266b, 0xe50e1b4f));
    OneRound(v, w, 58, Value(0x9fe3095e), Working(0xc062d46f, 0xfcd1887b, 0x38cc9913, 0x3ec45cdb, 0x7e44008e, 0x9b5e906c, 0x54cb266b, 0xe50e1b4f), Working(0xffb70472, 0xc062d46f, 0xfcd1887b, 0x38cc9913, 0x6d83bfc6, 0x7e44008e, 0x9b5e906c, 0x54cb266b));
    OneRound(v, w, 59, Value(0x78bc8d4b), Working(0xffb70472, 0xc062d46f, 0xfcd1887b, 0x38cc9913, 0x6d83bfc6, 0x7e44008e, 0x9b5e906c, 0x54cb266b), Working(0xb6ae8fff, 0xffb70472, 0xc062d46f, 0xfcd1887b, 0xb21bad3d, 0x6d83bfc6, 0x7e44008e, 0x9b5e906c));
    OneRound(v, w, 60, Value(0xa43fcf15), Working(0xb6ae8fff, 0xffb70472, 0xc062d46f, 0xfcd1887b, 0xb21bad3d, 0x6d83bfc6, 0x7e44008e, 0x9b5e906c), Working(0xb85e2ce9, 0xb6ae8fff, 0xffb70472, 0xc062d46f, 0x961f4894, 0xb21bad3d, 0x6d83bfc6, 0x7e44008e));
    OneRound(v, w, 61, Value(0x668b2ff8), Working(0xb85e2ce9, 0xb6ae8fff, 0xffb70472, 0xc062d46f, 0x961f4894, 0xb21bad3d, 0x6d83bfc6, 0x7e44008e), Working(0x04d24d6c, 0xb85e2ce9, 0xb6ae8fff, 0xffb70472, 0x948d25b6, 0x961f4894, 0xb21bad3d, 0x6d83bfc6));
    OneRound(v, w, 62, Value(0xeeaba2cc), Working(0x04d24d6c, 0xb85e2ce9, 0xb6ae8fff, 0xffb70472, 0x948d25b6, 0x961f4894, 0xb21bad3d, 0x6d83bfc6), Working(0xd39a2165, 0x04d24d6c, 0xb85e2ce9, 0xb6ae8fff, 0xfb121210, 0x948d25b6, 0x961f4894, 0xb21bad3d));
    OneRound(v, w, 63, Value(0x12b1edeb), Working(0xd39a2165, 0x04d24d6c, 0xb85e2ce9, 0xb6ae8fff, 0xfb121210, 0x948d25b6, 0x961f4894, 0xb21bad3d), Working(0x506e3058, 0xd39a2165, 0x04d24d6c, 0xb85e2ce9, 0x5ef50f24, 0xfb121210, 0x948d25b6, 0x961f4894));
  }

  /** The block of the padded message: "abc", 0x80, zero bytes, and its length of 24 bits. */
  ghost predicate IsBlock(block: seq<byte>) {
    |block| == 64 && block[0] == 0x61 && block[1] == 0x62 && block[2] == 0x63 && block[3] == 0x80 && block[63] == 24 && forall i :: 4 <= i < 63 ==> block[i] == 0
  }

  lemma WordFacts()
    ensures WordOf(0x61, 0x62, 0x63, 0x80) == 0x61626380 && WordOf(0, 0, 0, 0) == 0 && WordOf(0, 0, 0, 24) == 0x18
  {
    assert (0x61 as Word) == 0x61 && (0x62 as Word) == 0x62 && (0x63 as Word) == 0x63 && (0x80 as Word) == 0x80;
  }

  lemma FirstWords(block: seq<byte>, w: seq<Word>)
    requires IsBlock(block) && |w| == 64 && |block| == 64 && forall t :: 0 <= t < 16 ==> w[t] == WordOf(block[4 * t], block[4 * t + 1], block[4 * t + 2], block[4 * t + 3])
    ensures EightWords(w, 0, Value(0x61626380), Value(0x00000000), Value(0x00000000), Value(0x00000000), Value(0x00000000), Value(0x00000000), Value(0x00000000), Value(0x00000000))
    ensures EightWords(w, 8, Value(0x00000000), Value(0x00000000), Value(0x00000000), Value(0x00000000), Value(0x00000000), Value(0x00000000), Value(0x00000000), Value(0x00000018))
  {
    hide WordOf, IsWord;
    WordFacts();
    WordIs(block, w, 0, Value(0x61626380));
    WordIs(block, w, 15, Value(0x00000018));
    forall t: nat | 1 <= t < 15 ensures IsWord(w, t, Value(0x00000000)) {
      WordIs(block, w, t, Value(0x00000000));
    }
  }

  lemma WordIs(block: seq<byte>, w: seq<Word>, t: nat, x: Value)
    requires |block| == 64 && |w| == 64 && t < 16 && w[t] == WordOf(block[4 * t], block[4 * t + 1], block[4 * t + 2], block[4 * t + 3])
    requires WordOf(block[4 * t], block[4 * t + 1], block[4 * t + 2], block[4 * t + 3]) == x.word
    ensures IsWord(w, t, x)
  {
    hide WordOf;
  }

  ghost function WordsOf(block: seq<byte>): (w: seq<Word>)
    requires |block| == 64
    ensures |w| == 64 && forall t :: 0 <= t < 64 ==> w[t] == Schedule(block, t)
  {
    seq(64, t requires 0 <= t < 64 => Schedule(block, t))
  }

  ghost function StatesOf(h: seq<Word>, block: seq<byte>): (v: seq<Working>)
    requires |h| == 8 && |block| == 64
    ensures |v| == 65 && forall t :: 0 <= t < 65 ==> v[t] == Rounds(h, block, t)
  {
    seq(65, t requires 0 <= t < 65 => Rounds(h, block, t))
  }

  lemma ScheduleSteps(block: seq<byte>, t: nat)
    requires |block| == 64 && t < 64
    ensures t < 16 ==> Schedule(block, t) == WordOf(block[4 * t], block[4 * t + 1], block[4 * t + 2], block[4 * t + 3])
    ensures t >= 16 ==> Schedule(block, t) == Mix(Schedule(block, t - 2), Schedule(block, t - 7), Schedule(block, t - 15), Schedule(block, t - 16))
  {
    hide Mix, WordOf;
  }

  lemma RoundSteps(h: seq<Word>, block: seq<byte>, t: nat)
    requires |h| == 8 && |block| == 64 && t < 64
    ensures Rounds(h, block, 0) == Start(h)
    ensures Rounds(h, block, t + 1) == Round(Rounds(h, block, t), ROUND_CONSTANTS[t], Schedule(block, t))
  {
    hide Round, Schedule;
  }

  lemma BlockWords(block: seq<byte>, w: seq<Word>)
    requires |block| == 64 && w == WordsOf(block)
    ensures Scheduled(w) && forall t :: 0 <= t < 16 ==> w[t] == WordOf(block[4 * t], block[4 * t + 1], block[4 * t + 2], block[4 * t + 3])
  {
    hide Mix, WordOf, Schedule;
    forall t: nat | t < 64
      ensures t < 16 ==> w[t] == WordOf(block[4 * t], block[4 * t + 1], block[4 * t + 2], block[4 * t + 3])
      ensures t >= 16 ==> w[t] == Mix(w[t - 2], w[t - 7], w[t - 15], w[t - 16])
    {
      ScheduleSteps(block, t);
    }
  }

  lemma BlockStates(h: seq<Word>, block: seq<byte>, v: seq<Working>, w: seq<Word>)
    requires |h| == 8 && |block| == 64 && w == WordsOf(block) && v == StatesOf(h, block)
    ensures Worked(v, w) && IsState(v, 0, Start(h))
  {
    hide Round, Schedule, Rounds;
    forall t: nat | t < 64 ensures v[t + 1] == Round(v[t], ROUND_CONSTANTS[t], w[t]) {
      RoundSteps(h, block, t);
    }
    RoundSteps(h, block, 0);
  }

  lemma Begin(h: seq<Word>)
    requires h == INITIAL_STATE
    ensures |h| == 8 && Start(h) == Working(0x6a09e667, 0xbb67ae85, 0x3c6ef372, 0xa54ff53a, 0x510e527f, 0x9b05688c, 0x1f83d9ab, 0x5be0cd19)
  {
  }

  lemma LastState(h: seq<Word>, block: seq<byte>, x: Working)
    requires |h| == 8 && |block| == 64 && IsState(StatesOf(h, block), 64, x)
    ensures Rounds(h, block, 64) == x
  {
    hide Rounds;
  }

  /** The working variables after all rounds over the block. */
  lemma AllRounds(h: seq<Word>, block: seq<byte>)
    requires |block| == 64 && IsBlock(block) && h == INITIAL_STATE && |h| == 8
    ensures Rounds(h, block, 64) == Working(0x506e3058, 0xd39a2165, 0x04d24d6c, 0xb85e2ce9, 0x5ef50f24, 0xfb121210, 0x948d25b6, 0x961f4894)
  {
    Begin(h);
    hide *;
    var w, v := WordsOf(block), StatesOf(h, block);
    BlockWords(block, w);
    BlockStates(h, block, v, w);
    FirstWords(block, w);
    Words16(w);
    Words24(w);
    Words32(w);
    Words40(w);
    Words48(w);
    Words56(w);
    Rounds0(v, w);
    Rounds8(v, w);
    Rounds16(v, w);
    Rounds24(v, w);
    Rounds32(v, w);
    Rounds40(v, w);
    Rounds48(v, w);
    Rounds56(v, w);
    LastState(h, block, Working(0x506e3058, 0xd39a2165, 0x04d24d6c, 0xb85e2ce9, 0x5ef50f24, 0xfb121210, 0x948d25b6, 0x961f4894));
  }

  lemma Compressed(h: seq<Word>, block: seq<byte>)
    requires |block| == 64 && IsBlock(block) && h == INITIAL_STATE && |h| == 8
    ensures Compress(h, block) == [0xba7816bf, 0x8f01cfea, 0x414140de, 0x5dae2223, 0xb00361a3, 0x96177a9c, 0xb410ff61, 0xf20015ad]
  {
    hide Rounds, IsBlock;
    AllRounds(h, block);
    Sums();
  }

  lemma Sums()
    ensures (0x6a09e667 as Word) + 0x506e3058 == 0xba7816bf
    ensures (0xbb67ae85 as Word) + 0xd39a2165 == 0x8f01cfea
    ensures (0x3c6ef372 as Word) + 0x04d24d6c == 0x414140de
    ensures (0xa54ff53a as Word) + 0xb85e2ce9 == 0x5dae2223
    ensures (0x510e527f as Word) + 0x5ef50f24 == 0xb00361a3
    ensures (0x9b05688c as Word) + 0xfb121210 == 0x96177a9c
    ensures (0x1f83d9ab as Word) + 0x948d25b6 == 0xb410ff61
    ensures (0x5be0cd19 as Word) + 0x961f4894 == 0xf20015ad
  {
  }

  lemma PaddedIsBlock(message: seq<byte>)
    requires message == [0x61, 0x62, 0x63]
    ensures IsBlock(Padded(message))
  {
    LengthBytes();
    hide Be;
    var padded := Padded(message);
    assert |message| == 3 && ZeroCount(|message|) == 52 && BitLength(|message|) == 24;
    assert padded == [0x61, 0x62, 0x63, 0x80] + Zeros(52) + [0, 0, 0, 0, 0, 0, 0, 24];
  }

  lemma LengthBytes()
    ensures Be(8, 24) == [0, 0, 0, 0, 0, 0, 0, 24]
  {
  }

  lemma OneBlock(block: seq<byte>)
    requires |block| == 64
    ensures Fold(block) == Compress(INITIAL_STATE, block)
  {
    hide Compress;
    assert block[..0] == [] && block[0..] == block;
  }

  /** The digest of "abc". */
  lemma VectorAbc(message: seq<byte>)
    requires message == [0x61, 0x62, 0x63]
    ensures Hash(message) == [0xba, 0x78, 0x16, 0xbf, 0x8f, 0x01, 0xcf, 0xea, 0x41, 0x41, 0x40, 0xde, 0x5d, 0xae, 0x22, 0x23, 0xb0, 0x03, 0x61, 0xa3, 0x96, 0x17, 0x7a, 0x9c, 0xb4, 0x10, 0xff, 0x61, 0xf2, 0x00, 0x15, 0xad]
  {
    var block := Padded(message);
    PaddedIsBlock(message);
    BlockSize(block);
    hide IsBlock, Compress, Padded, DigestBytes, Fold;
    Compressed(INITIAL_STATE, block);
    OneBlock(block);
    DigestOfWords(Fold(block));
  }

  lemma BlockSize(block: seq<byte>)
    requires IsBlock(block)
    ensures |block| == 64
  {
  }

  lemma DigestOfWords(h: seq<Word>)
    requires h == [0xba7816bf, 0x8f01cfea, 0x414140de, 0x5dae2223, 0xb00361a3, 0x96177a9c, 0xb410ff61, 0xf20015ad]
    ensures DigestBytes(h) == [0xba, 0x78, 0x16, 0xbf, 0x8f, 0x01, 0xcf, 0xea, 0x41, 0x41, 0x40, 0xde, 0x5d, 0xae, 0x22, 0x23, 0xb0, 0x03, 0x61, 0xa3, 0x96, 0x17, 0x7a, 0x9c, 0xb4, 0x10, 0xff, 0x61, 0xf2, 0x00, 0x15, 0xad]
  {
    hide WordBytes, DigestBytes;
    ByteFacts();
    NoDigest();
    DigestTo(h, 0, [], 0xba7816bf, [0xba, 0x78, 0x16, 0xbf]);
    assert [] + [0xba, 0x78, 0x16, 0xbf] == [0xba, 0x78, 0x16, 0xbf];
    DigestTo(h, 1, [0xba, 0x78, 0x16, 0xbf], 0x8f01cfea, [0x8f, 0x01, 0xcf, 0xea]);
    assert [0xba, 0x78, 0x16, 0xbf] + [0x8f, 0x01, 0xcf, 0xea] == [0xba, 0x78, 0x16, 0xbf, 0x8f, 0x01, 0xcf, 0xea];
    DigestTo(h, 2, [0xba, 0x78, 0x16, 0xbf, 0x8f, 0x01, 0xcf, 0xea], 0x414140de, [0x41, 0x41, 0x40, 0xde]);
    assert [0xba, 0x78, 0x16, 0xbf, 0x8f, 0x01, 0xcf, 0xea] + [0x41, 0x41, 0x40, 0xde] == [0xba, 0x78, 0x16, 0xbf, 0x8f, 0x01, 0xcf, 0xea, 0x41, 0x41, 0x40, 0xde];
    DigestTo(h, 3, [0xba, 0x78, 0x16, 0xbf, 0x8f, 0x01, 0xcf, 0xea, 0x41, 0x41, 0x40, 0xde], 0x5dae2223, [0x5d, 0xae, 0x22, 0x23]);
    assert [0xba, 0x78, 0x16, 0xbf, 0x8f, 0x01, 0xcf, 0xea, 0x41, 0x41, 0x40, 0xde] + [0x5d, 0xae, 0x22, 0x23] == [0xba, 0x78, 0x16, 0xbf, 0x8f, 0x01, 0xcf, 0xea, 0x41, 0x41, 0x40, 0xde, 0x5d, 0xae, 0x22, 0x23];
    DigestTo(h, 4, [0xba, 0x78, 0x16, 0xbf, 0x8f, 0x01, 0xcf, 0xea, 0x41, 0x41, 0x40, 0xde, 0x5d, 0xae, 0x22, 0x23], 0xb00361a3, [0xb0, 0x03, 0x61, 0xa3]);
    assert [0xba, 0x78, 0x16, 0xbf, 0x8f, 0x01, 0xcf, 0xea, 0x41, 0x41, 0x40, 0xde, 0x5d, 0xae, 0x22, 0x23] + [0xb0, 0x03, 0x61, 0xa3] == [0xba, 0x78, 0x16, 0xbf, 0x8f, 0x01, 0xcf, 0xea, 0x41, 0x41, 0x40, 0xde, 0x5d, 0xae, 0x22, 0x23, 0xb0, 0x03, 0x61, 0xa3];
    DigestTo(h, 5, [0xba, 0x78, 0x16, 0xbf, 0x8f, 0x01, 0xcf, 0xea, 0x41, 0x41, 0x40, 0xde, 0x5d, 0xae, 0x22, 0x23, 0xb0, 0x03, 0x61, 0xa3], 0x96177a9c, [0x96, 0x17, 0x7a, 0x9c]);
    assert [0xba, 0x78, 0x16, 0xbf, 0x8f, 0x01, 0xcf, 0xea, 0x41, 0x41, 0x40, 0xde, 0x5d, 0xae, 0x22, 0x23, 0xb0, 0x03, 0x61, 0xa3] + [0x96, 0x17, 0x7a, 0x9c] == [0xba, 0x78, 0x16, 0xbf, 0x8f, 0x01, 0xcf, 0xea, 0x41, 0x41, 0x40, 0xde, 0x5d, 0xae, 0x22, 0x23, 0xb0, 0x03, 0x61, 0xa3, 0x96, 0x17, 0x7a, 0x9c];
    DigestTo(h, 6, [0xba, 0x78, 0x16, 0xbf, 0x8f, 0x01, 0xcf, 0xea, 0x41, 0x41, 0x40, 0xde, 0x5d, 0xae, 0x22, 0x23, 0xb0, 0x03, 0x61, 0xa3, 0x96, 0x17, 0x7a, 0x9c], 0xb410ff61, [0xb4, 0x10, 0xff, 0x61]);
    assert [0xba, 0x78, 0x16, 0xbf, 0x8f, 0x01, 0xcf, 0xea, 0x41, 0x41, 0x40, 0xde, 0x5d, 0xae, 0x22, 0x23, 0xb0, 0x03, 0x61, 0xa3, 0x96, 0x17, 0x7a, 0x9c] + [0xb4, 0x10, 0xff, 0x61] == [0xba, 0x78, 0x16, 0xbf, 0x8f, 0x01, 0xcf, 0xea, 0x41, 0x41, 0x40, 0xde, 0x5d, 0xae, 0x22, 0x23, 0xb0, 0x03, 0x61, 0xa3, 0x96, 0x17, 0x7a, 0x9c, 0xb4, 0x10, 0xff, 0x61];
    DigestTo(h, 7, [0xba, 0x78, 0x16, 0xbf, 0x8f, 0x01, 0xcf, 0xea, 0x41, 0x41, 0x40, 0xde, 0x5d, 0xae, 0x22, 0x23, 0xb0, 0x03, 0x61, 0xa3, 0x96, 0x17, 0x7a, 0x9c, 0xb4, 0x10, 0xff, 0x61], 0xf20015ad, [0xf2, 0x00, 0x15, 0xad]);
    assert [0xba, 0x78, 0x16, 0xbf, 0x8f, 0x01, 0xcf, 0xea, 0x41, 0x41, 0x40, 0xde, 0x5d, 0xae, 0x22, 0x23, 0xb0, 0x03, 0x61, 0xa3, 0x96, 0x17, 0x7a, 0x9c, 0xb4, 0x10, 0xff, 0x61] + [0xf2, 0x00, 0x15, 0xad] == [0xba, 0x78, 0x16, 0xbf, 0x8f, 0x01, 0xcf, 0xea, 0x41, 0x41, 0x40, 0xde, 0x5d, 0xae, 0x22, 0x23, 0xb0, 0x03, 0x61, 0xa3, 0x96, 0x17, 0x7a, 0x9c, 0xb4, 0x10, 0xff, 0x61, 0xf2, 0x00, 0x15, 0xad];
    assert h[..8] == h;
  }

  lemma NoDigest()
    ensures DigestBytes([]) == []
  {
  }

  lemma DigestTo(h: seq<Word>, i: nat, front: seq<byte>, w: Word, bytes: seq<byte>)
    requires i < |h| && h[i] == w && DigestBytes(h[..i]) == front && WordBytes(w) == bytes
    ensures DigestBytes(h[..i + 1]) == front + bytes
  {
    hide WordBytes;
    assert h[..i + 1][..i] == h[..i];
  }

  lemma ByteFacts()
    ensures WordBytes(0xba7816bf) == [0xba, 0x78, 0x16, 0xbf]
    ensures WordBytes(0x8f01cfea) == [0x8f, 0x01, 0xcf, 0xea]
    ensures WordBytes(0x414140de) == [0x41, 0x41, 0x40, 0xde]
    ensures WordBytes(0x5dae2223) == [0x5d, 0xae, 0x22, 0x23]
    ensures WordBytes(0xb00361a3) == [0xb0, 0x03, 0x61, 0xa3]
    ensures WordBytes(0x96177a9c) == [0x96, 0x17, 0x7a, 0x9c]
    ensures WordBytes(0xb410ff61) == [0xb4, 0x10, 0xff, 0x61]
    ensures WordBytes(0xf20015ad) == [0xf2, 0x00, 0x15, 0xad]
  {
  }

  /** So the stream gives it too, however the message is cut up. */
  method HashAbc(chunks: seq<seq<byte>>) returns (digest: seq<byte>)
    requires Joined(chunks) == [0x61, 0x62, 0x63]
    ensures digest == [0xba, 0x78, 0x16, 0xbf, 0x8f, 0x01, 0xcf, 0xea, 0x41, 0x41, 0x40, 0xde, 0x5d, 0xae, 0x22, 0x23, 0xb0, 0x03, 0x61, 0xa3, 0x96, 0x17, 0x7a, 0x9c, 0xb4, 0x10, 0xff, 0x61, 0xf2, 0x00, 0x15, 0xad]
  {
    hide Hash, Joined;
    VectorAbc(Joined(chunks));
    digest := HashChunks(chunks);
  }
}

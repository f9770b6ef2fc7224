/** Helpers shared by the record kinds: the printable name of a component type
    and the random name generator used for gateways. */
module Utils {
  import opened Text
  import opened TopoErrors
  import opened Records

  /** The lower-cased enum name of a listed component type, "unknown" for any other value. */
  function ComponentTypeToString(c: Component): (s: string)
    ensures c.Unnamed? ==> s == "unknown"
    ensures c.Named? ==> |s| == |c.enumName| && forall i :: 0 <= i < |s| ==> s[i] == LowerChar(c.enumName[i])
  {
    match c
    case Named(name) => ToLower(name)
    case Unnamed(_) => "unknown"
  }

  /** The alphabet of random names: lower-case consonants and digits, no vowels, no 0, 1 or 3. */
  const Alphanums := "bcdfghjklmnpqrstvwxz2456789"
  /** Bits of a random word used per character, the mask that extracts them,
      and how many characters one 63-bit word yields. */
  const AlphanumsIdxBits := 5
  const AlphanumsIdxMask := 31
  const MaxAlphanumsPerInt := 63 / AlphanumsIdxBits

  /** The five-bit indices a word yields, lowest bits first: `w & mask`, then `w >>= 5`. */
  function WordChunks(w: nat, count: nat): (r: seq<nat>)
    ensures |r| == count
    decreases count
  {
    if count == 0 then [] else [w % 32] + WordChunks(w / 32, count - 1)
  }

  /** All indices drawn from a sequence of random words, in order. */
  function Chunks(words: seq<nat>): (r: seq<nat>)
    ensures |r| == MaxAlphanumsPerInt * |words|
  {
    if words == [] then [] else WordChunks(words[0], MaxAlphanumsPerInt) + Chunks(words[1..])
  }

  /** The characters the indices select, dropping those past the end of the alphabet. */
  function Kept(chunks: seq<nat>): (r: string)
    ensures |r| <= |chunks|
  {
    if chunks == [] then []
    else if chunks[0] < |Alphanums| then [Alphanums[chunks[0]]] + Kept(chunks[1..])
    else Kept(chunks[1..])
  }

  lemma {:induction false} KeptAppend(a: seq<nat>, b: seq<nat>)
    ensures Kept(a + b) == Kept(a) + Kept(b)
    decreases |a|
  {
    if a != [] {
      assert (a + b)[1..] == a[1..] + b;
      KeptAppend(a[1..], b);
    } else {
      assert a + b == b;
    }
  }

  /** RandomString(n) with the generator's output given as `words` (each below 2^63,
      as rand.Int64 yields): the first n kept characters of the words' indices,
      or None when the words run out first. A word is drawn before the loop
      even when n is 0. */
  method RandomString(n: nat, words: seq<nat>) returns (r: Option<string>)
    requires forall i :: 0 <= i < |words| ==> words[i] < 0x8000_0000_0000_0000
    ensures r.Some? <==> |words| >= 1 && |Kept(Chunks(words))| >= n
    ensures r.Some? ==> r.value == Kept(Chunks(words))[..n]
    ensures r.Some? ==> n <= MaxAlphanumsPerInt * |words|
  {
    if |words| == 0 {
      return None;
    }
    var b := new char[n];
    var word := words[0];
    var k := 1;
    var remaining := MaxAlphanumsPerInt;
    var i := 0;
    ghost var all := Kept(Chunks(words));
    ChunksFrom(words, 0);
    while i < n
      invariant 0 <= i <= n
      invariant 1 <= k <= |words|
      invariant 0 <= remaining <= MaxAlphanumsPerInt
      invariant all == b[..i] + Kept(WordChunks(word, remaining) + Chunks(words[k..]))
      decreases |words| - k, remaining
    {
      if remaining == 0 {
        if k == |words| {
          assert WordChunks(word, remaining) + Chunks(words[k..]) == [];
          return None;
        }
        Refill(word, words, k);
        word, remaining := words[k], MaxAlphanumsPerInt;
        k := k + 1;
      }
      assert all == b[..i] + Kept(WordChunks(word, remaining) + Chunks(words[k..]));
      i := Emit(b, i, word, remaining, Chunks(words[k..]), all);
      word := word / 32;
      remaining := remaining - 1;
    }
    assert all[..n] == b[..];
    return Some(b[..]);
  }

  /** One step of the loop: the lowest five bits of the word select the next
      character, which is written at position i, or are skipped when they lie
      past the end of the alphabet. */
  method Emit(b: array<char>, i: nat, word: nat, remaining: nat, tail: seq<nat>, ghost all: string) returns (j: nat)
    requires i < b.Length && remaining > 0
    requires all == b[..i] + Kept(WordChunks(word, remaining) + tail)
    modifies b
    ensures j == if word % 32 < |Alphanums| then i + 1 else i
    ensures all == b[..j] + Kept(WordChunks(word / 32, remaining - 1) + tail)
  {
    ghost var before := b[..i];
    Advance(all, before, word, remaining, tail);
    var idx := word % 32;
    if idx < |Alphanums| {
      b[i] := Alphanums[idx];
      j := i + 1;
      assert b[..j] == before + [Alphanums[idx]];
    } else {
      j := i;
    }
  }

  /** What one step does to the characters still to come: the lowest five bits yield a character or are skipped. */
  lemma Advance(all: string, before: string, w: nat, remaining: nat, tail: seq<nat>)
    requires remaining > 0
    requires all == before + Kept(WordChunks(w, remaining) + tail)
    ensures w % 32 < |Alphanums| ==> all == (before + [Alphanums[w % 32]]) + Kept(WordChunks(w / 32, remaining - 1) + tail)
    ensures w % 32 >= |Alphanums| ==> all == before + Kept(WordChunks(w / 32, remaining - 1) + tail)
  {
    KeptStep(w, remaining, tail);
  }

  /** Drawing a new word when the current one is used up leaves the indices still to come as they were. */
  lemma Refill(word: nat, words: seq<nat>, k: nat)
    requires k < |words|
    ensures WordChunks(word, 0) + Chunks(words[k..]) == WordChunks(words[k], MaxAlphanumsPerInt) + Chunks(words[k + 1..])
  {
    ChunksFrom(words, k);
  }

  lemma ChunksFrom(words: seq<nat>, k: nat)
    requires k < |words|
    ensures Chunks(words[k..]) == WordChunks(words[k], MaxAlphanumsPerInt) + Chunks(words[k + 1..])
  {
    assert words[k..][1..] == words[k + 1..];
  }

  /** Consuming one index: it contributes its character when it is inside the alphabet. */
  lemma KeptStep(w: nat, remaining: nat, tail: seq<nat>)
    requires remaining > 0
    ensures w % 32 < |Alphanums| ==> Kept(WordChunks(w, remaining) + tail) == [Alphanums[w % 32]] + Kept(WordChunks(w / 32, remaining - 1) + tail)
    ensures w % 32 >= |Alphanums| ==> Kept(WordChunks(w, remaining) + tail) == Kept(WordChunks(w / 32, remaining - 1) + tail)
  {
    var rest := WordChunks(w / 32, remaining - 1) + tail;
    assert WordChunks(w, remaining) + tail == [w % 32] + rest;
    assert ([w % 32] + rest)[1..] == rest;
  }

  /** Every character of a random name is drawn from the alphabet. */
  lemma {:induction false} KeptInAlphabet(chunks: seq<nat>)
    ensures forall i :: 0 <= i < |Kept(chunks)| ==> Kept(chunks)[i] in Alphanums
    decreases |chunks|
  {
    if chunks != [] {
      KeptInAlphabet(chunks[1..]);
    }
  }

  /** A word whose twelve low five-bit groups are all below 27 yields twelve characters. */
  lemma {:induction false} FullWord(w: nat)
    requires forall i :: 0 <= i < MaxAlphanumsPerInt ==> WordChunks(w, MaxAlphanumsPerInt)[i] < |Alphanums|
    ensures |Kept(WordChunks(w, MaxAlphanumsPerInt))| == MaxAlphanumsPerInt
  {
    AllKept(WordChunks(w, MaxAlphanumsPerInt));
  }

  lemma {:induction false} AllKept(chunks: seq<nat>)
    requires forall i :: 0 <= i < |chunks| ==> chunks[i] < |Alphanums|
    ensures |Kept(chunks)| == |chunks|
    decreases |chunks|
  {
    if chunks != [] {
      AllKept(chunks[1..]);
    }
  }
}

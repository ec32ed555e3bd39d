/** Random passwords: rejection sampling, one character of every group, and an in-place shuffle. */
module Password {
  import opened Numbers
  import opened Text

  const GROUPS := ["ABCDEFGHJKLMNPQRSTUVWXYZ", "abcdefghijkmnopqrstuvwxyz", "23456789", "!@#$%^&*()-_=+"]
  const ALPHABET := "ABCDEFGHJKLMNPQRSTUVWXYZ" + "abcdefghijkmnopqrstuvwxyz" + "23456789" + "!@#$%^&*()-_=+"

  /** The random bytes a run of the generator consumes. */
  class RandomSource {
    const bytes: seq<nat>
    var position: nat

    ghost predicate Valid()
      reads this
    {
      position <= |bytes| && forall i :: 0 <= i < |bytes| ==> bytes[i] < 256
    }

    constructor (sample: seq<nat>)
      requires forall i :: 0 <= i < |sample| ==> sample[i] < 256
      ensures Valid() && bytes == sample && position == 0
    {
      bytes, position := sample, 0;
    }

    /** `secureIndex`: the residue of the first accepted byte; nothing if the sample ends before one. */
    method SecureIndex(length: nat) returns (index: Option<nat>)
      requires Valid() && length > 0
      modifies this
      ensures Valid() && old(position) <= position
      ensures index.None? ==> forall i :: old(position) <= i < |bytes| ==> !Accepted(bytes[i], length)
      ensures index.Some? ==> position > old(position) && Accepted(bytes[position - 1], length) && index.value == bytes[position - 1] % length
      ensures index.Some? ==> index.value < length && forall i :: old(position) <= i < position - 1 ==>
                !Accepted(bytes[i], length)
    {
      var boundary := 256 - 256 % length;
      while position < |bytes|
        invariant Valid() && old(position) <= position
        invariant forall i :: old(position) <= i < position ==> !Accepted(bytes[i], length)
      {
        var sample := bytes[position];
        position := position + 1;
        if sample < boundary {
          return Some(sample % length);
        }
      }
      return None;
    }
  }

  // ---- rejection sampling ------------------------------------------------------------------------

  function Boundary(length: nat): int
    requires length > 0
  {
    256 - 256 % length
  }

  predicate Accepted(byte: nat, length: nat)
    requires length > 0
  {
    byte < Boundary(length)
  }

  /** How many of the bytes below `n` are accepted and have this residue. */
  function Hits(length: nat, residue: nat, n: nat): nat
    requires length > 0
  {
    if n == 0 then 0 else Hits(length, residue, n - 1) + if Accepted(n - 1, length) && (n - 1) % length == residue then 1 else 0
  }

  lemma BoundaryIsMultiple(length: nat)
    requires length > 0
    ensures Boundary(length) == (256 / length) * length
  {
    assert 256 == (256 / length) * length + 256 % length;
  }

  lemma ResidueOf(q: nat, r: nat, length: nat)
    requires length > 0 && r < length
    ensures (q * length + r) % length == r
  {
    var n := q * length + r;
    assert n == (n / length) * length + n % length;
    if n / length < q {
      MulMonotone(n / length + 1, q, length);
    } else if n / length > q {
      MulMonotone(q + 1, n / length, length);
    }
  }

  lemma {:induction false} HitsInRow(length: nat, residue: nat, q: nat, r: nat)
    requires length > 0 && residue < length && r <= length && q * length + r <= Boundary(length)
    ensures Hits(length, residue, q * length + r) == q + if residue < r then 1 else 0
    decreases q, r
  {
    if r > 0 {
      HitsInRow(length, residue, q, r - 1);
      ResidueOf(q, r - 1, length);
    } else if q > 0 {
      assert q * length == (q - 1) * length + length;
      HitsInRow(length, residue, q - 1, length);
    }
  }

  lemma {:induction false} NoHitsBeyond(length: nat, residue: nat, n: nat)
    requires length > 0 && Boundary(length) <= n
    ensures Hits(length, residue, n) == Hits(length, residue, Boundary(length))
  {
    if n > Boundary(length) {
      NoHitsBeyond(length, residue, n - 1);
    }
  }

  /** Every index is produced by equally many of the 256 byte values: sampling is unbiased. */
  lemma EveryIndexEquallyLikely(length: nat, residue: nat)
    requires length > 0 && residue < length
    ensures Hits(length, residue, 256) == 256 / length
  {
    BoundaryIsMultiple(length);
    HitsInRow(length, residue, 256 / length, 0);
    NoHitsBeyond(length, residue, 256);
  }

  /** Sampling can end exactly when there are at most 256 indices; for more, every byte is rejected. */
  lemma SamplingEndsExactlyWhen(length: nat)
    requires length > 0
    ensures (exists byte: nat :: byte < 256 && Accepted(byte, length)) <==> length <= 256
  {
    if length <= 256 {
      BoundaryIsMultiple(length);
      QuotientIsLargest(1, 256, length);
      MulMonotone(1, 256 / length, length);
      assert Accepted(0, length);
    }
  }

  /** No count of at most 256 rejects any of the lower 129 byte values. */
  lemma LowBytesAreAccepted(byte: nat, length: nat)
    requires byte <= 128 && 1 <= length <= 256
    ensures Accepted(byte, length)
  {
    BoundaryIsMultiple(length);
    QuotientIsLargest(1, 256, length);
    MulMonotone(1, 256 / length, length);
  }

  /** What is left of the sample suffices for `n` draws that reject nothing. */
  ghost predicate Ample(random: RandomSource, n: int)
    reads random
  {
    && random.Valid() && n <= |random.bytes| - random.position
    && forall i :: random.position <= i < |random.bytes| ==> random.bytes[i] <= 128
  }

  // ---- the shuffle -----------------------------------------------------------------------------------

  function Swapped(s: string, i: nat, j: nat): string
    requires i < |s| && j < |s|
  {
    s[i := s[j]][j := s[i]]
  }

  /** Positions drawn for the indices from `top` down: each at most its index. */
  predicate IsDraw(draws: seq<nat>, top: nat) { |draws| <= top && forall m :: 0 <= m < |draws| ==> draws[m] <= top - m }

  /** The characters after swapping each index from `top` down with the position drawn for it. */
  function Shuffled(s: string, top: nat, draws: seq<nat>): string
    requires top < |s| && IsDraw(draws, top)
    decreases |draws|
  {
    if draws == [] then s else Shuffled(Swapped(s, top, draws[0]), top - 1, draws[1..])
  }

  lemma SwapKeepsLetters(s: string, i: nat, j: nat)
    requires i < |s| && j < |s|
    ensures |Swapped(s, i, j)| == |s| && multiset(Swapped(s, i, j)) == multiset(s)
  {
  }

  /** Indices above the ones still to swap keep their characters; the one swapped first gets the drawn one for good. */
  lemma {:induction false} ShuffleSettles(s: string, top: nat, draws: seq<nat>)
    requires top < |s| && IsDraw(draws, top)
    ensures |Shuffled(s, top, draws)| == |s| && multiset(Shuffled(s, top, draws)) == multiset(s)
    ensures forall i :: top < i < |s| ==> Shuffled(s, top, draws)[i] == s[i]
    ensures draws != [] ==> Shuffled(s, top, draws)[top] == s[draws[0]]
    decreases |draws|
  {
    if draws != [] {
      SwapKeepsLetters(s, top, draws[0]);
      ShuffleSettles(Swapped(s, top, draws[0]), top - 1, draws[1..]);
    }
  }

  lemma StillDraw(top: nat, draws: seq<nat>, draw: nat)
    requires IsDraw(draws, top) && |draws| < top && draw <= top - |draws|
    ensures IsDraw(draws + [draw], top)
  {
  }

  lemma ShuffledCons(s: string, top: nat, first: nat, rest: seq<nat>)
    requires top < |s| && IsDraw([first] + rest, top)
    ensures first <= top && top > 0 && IsDraw(rest, top - 1)
    ensures Shuffled(s, top, [first] + rest) == Shuffled(Swapped(s, top, first), top - 1, rest)
  {
    var draws := [first] + rest;
    assert draws[0] == first && draws[1..] == rest;
    assert forall m :: 0 <= m < |rest| ==> rest[m] == draws[m + 1];
  }

  lemma {:induction false} OneMoreDraw(s: string, top: nat, draws: seq<nat>, draw: nat)
    requires top < |s| && IsDraw(draws, top) && |draws| < top && draw <= top - |draws|
    ensures IsDraw(draws + [draw], top) && |Shuffled(s, top, draws)| == |s|
    ensures Shuffled(s, top, draws + [draw]) == Swapped(Shuffled(s, top, draws), top - |draws|, draw)
    decreases |draws|
  {
    ShuffleSettles(s, top, draws);
    StillDraw(top, draws, draw);
    if draws == [] {
      assert [] + [draw] == [draw] + [];
      ShuffledCons(s, top, draw, []);
    } else {
      var first, rest := draws[0], draws[1..];
      assert draws == [first] + rest && draws + [draw] == [first] + (rest + [draw]);
      hide IsDraw, Shuffled;
      ShuffledCons(s, top, first, rest);
      ShuffledCons(s, top, first, rest + [draw]);
      OneMoreDraw(Swapped(s, top, first), top - 1, rest, draw);
    }
  }

  predicate Distinct(s: string) { forall i, j :: 0 <= i < j < |s| ==> s[i] != s[j] }

  lemma SwapKeepsDistinct(s: string, i: nat, j: nat)
    requires i < |s| && j < |s| && Distinct(s)
    ensures Distinct(Swapped(s, i, j))
  {
  }

  /** Different draws give different orders: of distinct characters, every order comes from at most one of the equally
      likely sequences of draws, so the shuffle favours none. */
  lemma {:induction false} DrawsDetermineOrder(s: string, top: nat, a: seq<nat>, b: seq<nat>)
    requires top < |s| && IsDraw(a, top) && IsDraw(b, top) && |a| == |b| && Distinct(s)
    requires Shuffled(s, top, a) == Shuffled(s, top, b)
    ensures a == b
    decreases |a|
  {
    if a != [] {
      ShuffleSettles(s, top, a);
      ShuffleSettles(s, top, b);
      assert a[0] == b[0];
      SwapKeepsDistinct(s, top, a[0]);
      DrawsDetermineOrder(Swapped(s, top, a[0]), top - 1, a[1..], b[1..]);
      assert a == [a[0]] + a[1..] && b == [b[0]] + b[1..];
    }
  }

  lemma ShuffleKeepsLetters(s: string, top: nat, draws: seq<nat>)
    requires top < |s| && IsDraw(draws, top)
    ensures multiset(Shuffled(s, top, draws)) == multiset(s)
  {
    ShuffleSettles(s, top, draws);
  }

  lemma NoDraws(s: string, top: nat)
    requires top < |s|
    ensures IsDraw([], top) && Shuffled(s, top, []) == s
  {
  }

  /** The array after the draws for the indices above `index`. */
  ghost predicate ShuffledTo(characters: array<char>, start: string, draws: seq<nat>, index: nat)
    reads characters
  {
    && characters.Length == |start| && index < |start| && |draws| == |start| - 1 - index
    && IsDraw(draws, |start| - 1) && characters[..] == Shuffled(start, |start| - 1, draws)
  }

  lemma NextShuffled(start: string, draws: seq<nat>, index: nat, draw: nat)
    requires 0 < index < |start| && |draws| == |start| - 1 - index && IsDraw(draws, |start| - 1) && draw <= index
    ensures IsDraw(draws + [draw], |start| - 1) && |Shuffled(start, |start| - 1, draws)| == |start|
    ensures Shuffled(start, |start| - 1, draws + [draw]) == Swapped(Shuffled(start, |start| - 1, draws), index, draw)
  {
    OneMoreDraw(start, |start| - 1, draws, draw);
  }

  /** The draw and the swap for one index. */
  method ShuffleOne(characters: array<char>, random: RandomSource, index: nat, ghost start: string,
                    ghost draws: seq<nat>, ghost ample: bool)
    returns (draw: Option<nat>)
    requires random.Valid() && 0 < index && ShuffledTo(characters, start, draws, index)
    requires ample ==> index < 256 && Ample(random, index)
    modifies characters, random
    ensures random.Valid() && (draw.None? ==> ShuffledTo(characters, start, draws, index))
    ensures draw.Some? ==> index < 256 && ShuffledTo(characters, start, draws + [draw.value], index - 1)
    ensures ample ==> draw.Some? && Ample(random, index - 1)
  {
    draw := DrawIndex(random, index + 1, ample, index);
    if draw.Some? {
      NextShuffled(start, draws, index, draw.value);
      hide Shuffled, Swapped, IsDraw;
      SwapCells(characters, index, draw.value);
    }
  }

  /** The shuffle loop, in place. It never gets past its first draw for more than 256 characters. */
  method ShuffleInPlace(characters: array<char>, random: RandomSource) returns (done: bool, ghost draws: seq<nat>)
    requires random.Valid() && 0 < characters.Length
    modifies characters, random
    ensures random.Valid() && IsDraw(draws, characters.Length - 1)
    ensures characters[..] == Shuffled(old(characters[..]), characters.Length - 1, draws)
    ensures done ==> |draws| == characters.Length - 1 && characters.Length <= 256
    ensures characters.Length <= 256 && old(Ample(random, characters.Length - 1)) ==> done
    ensures multiset(characters[..]) == multiset(old(characters[..]))
  {
    draws := [];
    ghost var start := characters[..];
    ghost var ample := characters.Length <= 256 && Ample(random, characters.Length - 1);
    ShuffleStarts(characters);
    hide *;
    var index := characters.Length - 1;
    done := true;
    while index > 0
      invariant random.Valid() && 0 <= index < characters.Length && ShuffledTo(characters, start, draws, index)
      invariant index < characters.Length - 1 ==> characters.Length <= 256
      invariant ample ==> Ample(random, index)
    {
      var choice := ShuffleOne(characters, random, index, start, draws, ample);
      if choice.None? {
        done := false;
        break;
      }
      draws := draws + [choice.value];
      index := index - 1;
    }
    ShuffleEnds(characters, start, draws, index);
  }

  lemma ShuffleStarts(characters: array<char>)
    requires 0 < characters.Length
    ensures ShuffledTo(characters, characters[..], [], characters.Length - 1)
  {
    NoDraws(characters[..], characters.Length - 1);
  }

  lemma ShuffleEnds(characters: array<char>, start: string, draws: seq<nat>, index: nat)
    requires ShuffledTo(characters, start, draws, index)
    ensures |start| == characters.Length && |draws| == |start| - 1 - index && IsDraw(draws, |start| - 1)
    ensures characters[..] == Shuffled(start, |start| - 1, draws) && multiset(characters[..]) == multiset(start)
  {
    hide Shuffled, IsDraw;
    ShuffleKeepsLetters(start, |start| - 1, draws);
  }

  /** One draw: it needs at most 256 indices, and one byte of an ample rest. */
  method DrawIndex(random: RandomSource, length: nat, ghost ample: bool, ghost n: int) returns (index: Option<nat>)
    requires random.Valid() && length > 0
    requires ample ==> n >= 1 && length <= 256 && Ample(random, n)
    modifies random
    ensures random.Valid()
    ensures index.Some? ==> index.value < length && length <= 256
    ensures ample ==> index.Some? && Ample(random, n - 1)
  {
    ghost var from := random.position;
    if ample {
      LowBytesAreAccepted(random.bytes[from], length);
    }
    index := random.SecureIndex(length);
    SamplingEndsExactlyWhen(length);
  }

  method SwapCells(characters: array<char>, i: nat, j: nat)
    requires i < characters.Length && j < characters.Length
    modifies characters
    ensures characters[..] == Swapped(old(characters[..]), i, j)
  {
    characters[i], characters[j] := characters[j], characters[i];
  }

  // ---- the generator ------------------------------------------------------------------------------------

  predicate InGroup(c: char, g: nat)
    requires g < |GROUPS|
  {
    c in GROUPS[g]
  }

  ghost predicate HasOneOf(password: string, g: nat)
    requires g < |GROUPS|
  {
    exists i :: 0 <= i < |password| && InGroup(password[i], g)
  }

  ghost predicate FromEveryGroup(password: string)
  {
    && (forall g :: 0 <= g < |GROUPS| ==> HasOneOf(password, g))
    && (forall i :: 0 <= i < |password| ==> password[i] in ALPHABET)
  }

  lemma AlphabetHoldsGroups(g: nat)
    requires g < |GROUPS|
    ensures forall c :: c in GROUPS[g] ==> c in ALPHABET
  {
    assert GROUPS[0] == "ABCDEFGHJKLMNPQRSTUVWXYZ";
    forall c | c in GROUPS[g]
      ensures c in ALPHABET
    {
      assert c in GROUPS[0] || c in GROUPS[1] || c in GROUPS[2] || c in GROUPS[3];
    }
  }

  /** `generateRandomPassword`: of the requested length, with a character of every group; it is cut short only if the
      random bytes run out. Lengths from the number of groups to 256 are the ones it can produce: longer ones never come
      out, and for these any ample sample suffices. */
  method Generate(length: nat, random: RandomSource) returns (password: Result<string, string>)
    requires random.Valid()
    modifies random
    ensures length < |GROUPS| <==> password == Err("length")
    ensures password.Ok? ==> |password.value| == length && length <= 256 && FromEveryGroup(password.value)
    ensures |GROUPS| <= length <= 256 && old(Ample(random, 2 * length - 1)) ==> password.Ok?
  {
    if length < |GROUPS| {
      return Err("length");
    }
    var characters := new char[length];
    ghost var ample := length <= 256 && Ample(random, 2 * length - 1);
    GroupsAreSmall();
    hide Accepted;
    for n := 0 to |GROUPS|
      invariant random.Valid() && characters.Length == length
      invariant forall g :: 0 <= g < n ==> InGroup(characters[g], g)
      invariant ample ==> Ample(random, 2 * length - 1 - n)
    {
      var index := DrawIndex(random, |GROUPS[n]|, ample, 2 * length - 1 - n);
      if index.None? {
        return Err("random");
      }
      characters[n] := GROUPS[n][index.value];
    }
    forall g | 0 <= g < |GROUPS|
      ensures characters[g] in ALPHABET
    {
      AlphabetHoldsGroups(g);
    }
    for n := |GROUPS| to length
      invariant random.Valid() && characters.Length == length
      invariant forall g :: 0 <= g < |GROUPS| ==> InGroup(characters[g], g)
      invariant forall i :: 0 <= i < n ==> characters[i] in ALPHABET
      invariant ample ==> Ample(random, 2 * length - 1 - n)
    {
      var index := DrawIndex(random, |ALPHABET|, ample, 2 * length - 1 - n);
      if index.None? {
        return Err("random");
      }
      characters[n] := ALPHABET[index.value];
    }
    ghost var drawn := characters[..];
    var done, _ := ShuffleInPlace(characters, random);
    if !done {
      return Err("random");
    }
    ReorderedIsFromEveryGroup(drawn, characters[..]);
    return Ok(characters[..]);
  }

  lemma GroupsAreSmall()
    ensures |ALPHABET| <= 256 && forall g :: 0 <= g < |GROUPS| ==> 0 < |GROUPS[g]| <= 256
  {
  }

  lemma ReorderedIsFromEveryGroup(a: string, b: string)
    requires multiset(a) == multiset(b) && |a| >= |GROUPS|
    requires forall g :: 0 <= g < |GROUPS| ==> InGroup(a[g], g)
    requires forall i :: 0 <= i < |a| ==> a[i] in ALPHABET
    ensures FromEveryGroup(b)
  {
    forall g | 0 <= g < |GROUPS|
      ensures HasOneOf(b, g)
    {
      assert a[g] in multiset(a);
      assert a[g] in multiset(b);
      var i :| 0 <= i < |b| && b[i] == a[g];
      assert InGroup(b[i], g);
    }
    forall i | 0 <= i < |b|
      ensures b[i] in ALPHABET
    {
      assert b[i] in multiset(b);
      assert b[i] in multiset(a);
    }
  }
}

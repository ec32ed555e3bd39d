/** Multipart layout arithmetic, on the server and in the upload client. */
module Layout {
  import opened Numbers
  import opened Text

  const MIB: nat := 0x10_0000
  const GIB: nat := 0x4000_0000
  const TIB: nat := 0x100_0000_0000
  const MAX_PARTS: nat := 10_000
  const MAX_PART_SIZE: nat := 5 * GIB
  const MAX_OBJECT_SIZE: nat := 5 * TIB

  function Max(a: nat, b: nat): nat { if a > b then a else b }

  /** `_multipart_part_size`: the configured size, raised where the part cap needs it. */
  function PartSize(configured: nat, objectSize: nat): Result<nat, ()>
  {
    var required := Max(1, (objectSize + 9_999) / 10_000);
    var size := Max(configured, required);
    if size > MAX_PART_SIZE then Err(()) else Ok(size)
  }

  /** `expected_part_count`. */
  function PartCount(objectSize: nat, partSize: nat): nat
    requires partSize > 0
  {
    Max(1, (objectSize + partSize - 1) / partSize)
  }

  /** `expected_part_size`, with its out-of-range error. */
  function PartLength(objectSize: nat, partSize: nat, number: int): Result<int, ()>
    requires partSize > 0
  {
    if number < 1 || number > PartCount(objectSize, partSize) then Err(())
    else Ok(Min(partSize, objectSize - (number - 1) * partSize))
  }

  function Offset(partSize: nat, number: nat): int { (number - 1) * partSize }

  // ---- division facts --------------------------------------------------------------------

  lemma CeilingBounds(n: nat, d: nat)
    requires d > 0
    ensures var q := (n + d - 1) / d; n <= q * d && (n > 0 ==> (q - 1) * d < n && q >= 1)
  {
    var m := n + d - 1;
    assert m == (m / d) * d + m % d;
  }

  lemma CeilingFits(n: nat, d: nat, limit: nat)
    requires d > 0 && n <= limit * d
    ensures (n + d - 1) / d <= limit
  {
    var q := (n + d - 1) / d;
    CeilingBounds(n, d);
    if q > limit {
      assert (q - 1) * d >= limit * d by {
        MulMonotone(limit, q - 1, d);
      }
    }
  }

  // ---- the server's layout -----------------------------------------------------------------

  /** The layout is refused exactly for objects no 10,000 parts of the largest size can hold. */
  lemma LayoutRefusedExactlyWhen(configured: nat, objectSize: nat)
    requires configured <= MAX_PART_SIZE
    ensures PartSize(configured, objectSize).Err? <==> objectSize > MAX_PARTS * MAX_PART_SIZE
  {
  }

  /** Within the accepted sizes and settings the layout exists, meets every provider bound and needs no more than 10,000
      parts. */
  lemma LayoutFits(configured: nat, objectSize: nat)
    requires 5 * MIB <= configured <= MAX_PART_SIZE && objectSize <= MAX_OBJECT_SIZE
    ensures PartSize(configured, objectSize).Ok?
    ensures var size := PartSize(configured, objectSize).value;
            configured <= size <= MAX_PART_SIZE && 1 <= PartCount(objectSize, size) <= MAX_PARTS
  {
    LayoutRefusedExactlyWhen(configured, objectSize);
    var size := PartSize(configured, objectSize).value;
    CeilingBounds(objectSize, 10_000);
    assert objectSize <= MAX_PARTS * size;
    CeilingFits(objectSize, size, MAX_PARTS);
  }

  /** The parts tile the object: each starts where the one before ends, all but the last are full, the last ends the
      object. */
  lemma PartsTile(objectSize: nat, partSize: nat, number: nat)
    requires objectSize >= 1 && partSize >= 1 && 1 <= number <= PartCount(objectSize, partSize)
    ensures PartLength(objectSize, partSize, number).Ok?
    ensures var length := PartLength(objectSize, partSize, number).value;
            && 1 <= length <= partSize
            && Offset(partSize, 1) == 0
            && (number < PartCount(objectSize, partSize) ==>
                 length == partSize && Offset(partSize, number) + length == Offset(partSize, number + 1))
            && (number == PartCount(objectSize, partSize) ==> Offset(partSize, number) + length == objectSize)
  {
    var count := PartCount(objectSize, partSize);
    CeilingBounds(objectSize, partSize);
    if number < count {
      MulMonotone(number, count - 1, partSize);
      assert number * partSize == (number - 1) * partSize + partSize;
    } else {
      assert count * partSize == (count - 1) * partSize + partSize;
    }
  }

  lemma PartOfByteExists(objectSize: nat, partSize: nat, byte: nat)
    requires partSize >= 1 && byte < objectSize
    ensures 1 <= byte / partSize + 1 <= PartCount(objectSize, partSize)
  {
    var q, count := byte / partSize, PartCount(objectSize, partSize);
    assert byte == q * partSize + byte % partSize;
    CeilingBounds(objectSize, partSize);
    if q + 1 > count {
      MulMonotone(count, q, partSize);
    }
  }

  lemma LaterPartStartsBehind(partSize: nat, byte: nat, number: nat)
    requires partSize >= 1 && number > byte / partSize + 1
    ensures byte < Offset(partSize, number)
  {
    var q := byte / partSize;
    assert byte == q * partSize + byte % partSize;
    assert (q + 1) * partSize == q * partSize + partSize;
    MulMonotone(q + 1, number - 1, partSize);
  }

  lemma EarlierPartEndsBefore(partSize: nat, byte: nat, number: nat, length: nat)
    requires partSize >= 1 && 1 <= number < byte / partSize + 1 && length <= partSize
    ensures Offset(partSize, number) + length <= byte
  {
    var q := byte / partSize;
    assert byte == q * partSize + byte % partSize;
    assert number * partSize == (number - 1) * partSize + partSize;
    MulMonotone(number, q, partSize);
  }

  lemma OwnPartHoldsByte(objectSize: nat, partSize: nat, byte: nat)
    requires partSize >= 1 && byte < objectSize && byte / partSize + 1 <= PartCount(objectSize, partSize)
    ensures var number := byte / partSize + 1;
            Offset(partSize, number) <= byte < Offset(partSize, number) + PartLength(objectSize, partSize, number).value
  {
    var q := byte / partSize;
    assert byte == q * partSize + byte % partSize;
    PartsTile(objectSize, partSize, q + 1);
    assert (q + 1) * partSize == q * partSize + partSize;
  }

  /** Every byte belongs to exactly one part. */
  lemma EachByteInOnePart(objectSize: nat, partSize: nat, byte: nat, number: nat)
    requires partSize >= 1 && byte < objectSize && 1 <= number <= PartCount(objectSize, partSize)
    ensures 1 <= byte / partSize + 1 <= PartCount(objectSize, partSize)
    ensures Offset(partSize, number) <= byte < Offset(partSize, number) + PartLength(objectSize, partSize, number).value
       <==> number == byte / partSize + 1
  {
    PartOfByteExists(objectSize, partSize, byte);
    PartsTile(objectSize, partSize, number);
    OwnPartHoldsByte(objectSize, partSize, byte);
    var length := PartLength(objectSize, partSize, number).value;
    hide Offset, PartLength, PartCount;
    if number > byte / partSize + 1 {
      LaterPartStartsBehind(partSize, byte, number);
    } else if number < byte / partSize + 1 {
      EarlierPartEndsBefore(partSize, byte, number, length);
    }
  }

  // ---- the client ------------------------------------------------------------------------------

  /** `_validated_session`: the layout checks the client makes on the server's answer. */
  predicate SessionAccepted(objectSize: nat, partSize: int, partCount: int)
  {
    partSize >= 1 && 1 <= partCount <= 10_000 && Max(1, (objectSize + partSize - 1) / partSize) == partCount
  }

  /** The byte range the client uploads for one part. */
  function ClientRange(objectSize: nat, partSize: nat, number: nat): (int, int)
    requires number >= 1
  {
    var offset := (number - 1) * partSize;
    (offset, Min(partSize, objectSize - offset))
  }

  /** The client accepts the server's layout and asks for exactly the server's offsets and lengths. */
  lemma ClientMatchesServer(configured: nat, objectSize: nat, number: nat)
    requires 5 * MIB <= configured <= MAX_PART_SIZE && objectSize <= MAX_OBJECT_SIZE
    ensures PartSize(configured, objectSize).Ok?
    ensures var size := PartSize(configured, objectSize).value;
            && SessionAccepted(objectSize, size, PartCount(objectSize, size))
            && (1 <= number <= PartCount(objectSize, size) ==>
                  ClientRange(objectSize, size, number).0 == Offset(size, number)
                  && PartLength(objectSize, size, number) == Ok(ClientRange(objectSize, size, number).1))
  {
    LayoutFits(configured, objectSize);
  }

  // ---- progress ----------------------------------------------------------------------------------

  /** Bytes reported once the parts of `order` have completed, when part `n` has length `length(n)`. */
  function Reported(length: nat -> int, order: seq<nat>): int
  {
    if order == [] then 0 else Reported(length, order[..|order| - 1]) + length(order[|order| - 1])
  }

  function Lengths(objectSize: nat, partSize: nat): nat -> int
  {
    number => Min(partSize, objectSize - (number - 1) * partSize)
  }

  function Ascending(n: nat): (s: seq<nat>)
    ensures |s| == n && forall i :: 0 <= i < n ==> s[i] == i + 1
  {
    seq(n, i => i + 1)
  }

  lemma {:induction false} ReportedConcat(length: nat -> int, a: seq<nat>, b: seq<nat>)
    ensures Reported(length, a + b) == Reported(length, a) + Reported(length, b)
  {
    if b == [] {
      assert a + b == a;
    } else {
      ReportedConcat(length, a, b[..|b| - 1]);
      assert (a + b)[..|a + b| - 1] == a + b[..|b| - 1];
    }
  }

  lemma WithoutLast(a: seq<nat>, b: seq<nat>, i: nat)
    requires multiset(a) == multiset(b) && |a| > 0 && i < |b| && b[i] == a[|a| - 1]
    ensures multiset(a[..|a| - 1]) == multiset(b[..i] + b[i + 1..])
  {
    var last := a[|a| - 1];
    assert a == a[..|a| - 1] + [last];
    assert b == b[..i] + [last] + b[i + 1..];
    assert multiset(a[..|a| - 1]) == multiset(a) - multiset{last};
    assert multiset(b[..i] + b[i + 1..]) == multiset(b) - multiset{last};
  }

  /** Reported bytes depend on which parts completed, not on their order. */
  lemma {:induction false} OrderIsIrrelevant(length: nat -> int, a: seq<nat>, b: seq<nat>)
    requires multiset(a) == multiset(b)
    ensures Reported(length, a) == Reported(length, b)
    decreases |a|
  {
    if a == [] {
      assert |multiset(b)| == 0;
    } else {
      var last := a[|a| - 1];
      assert last in multiset(a);
      var i :| 0 <= i < |b| && b[i] == last;
      WithoutLast(a, b, i);
      OrderIsIrrelevant(length, a[..|a| - 1], b[..i] + b[i + 1..]);
      assert b == (b[..i] + [last]) + b[i + 1..];
      assert (b[..i] + [last])[..i] == b[..i];
      ReportedConcat(length, b[..i] + [last], b[i + 1..]);
      ReportedConcat(length, b[..i], b[i + 1..]);
    }
  }

  lemma {:induction false} AscendingReports(objectSize: nat, partSize: nat, n: nat)
    requires objectSize >= 1 && partSize >= 1 && n <= PartCount(objectSize, partSize)
    ensures Reported(Lengths(objectSize, partSize), Ascending(n)) == if n == PartCount(objectSize, partSize) then objectSize else n * partSize
  {
    hide Offset, PartLength;
    if n > 0 {
      AscendingReports(objectSize, partSize, n - 1);
      assert Ascending(n)[..n - 1] == Ascending(n - 1);
      LengthOf(objectSize, partSize, n);
    } else {
      assert Ascending(0) == [];
    }
  }

  lemma LengthOf(objectSize: nat, partSize: nat, n: nat)
    requires objectSize >= 1 && partSize >= 1 && 1 <= n <= PartCount(objectSize, partSize)
    ensures var length := Lengths(objectSize, partSize)(n);
            (n - 1) * partSize + length == if n == PartCount(objectSize, partSize) then objectSize else n * partSize
  {
    PartsTile(objectSize, partSize, n);
  }

  /** `ProtocolWriter`: progress totals per object, in the order parts happen to finish. */
  class ProgressWriter {
    var progress: map<string, int>

    constructor ()
      ensures progress == map[]
    {
      progress := map[];
    }

    function Total(oid: string): int
      reads this
    {
      if oid in progress then progress[oid] else 0
    }

    method AddProgress(oid: string, bytes: int) returns (total: int)
      modifies this
      ensures progress == old(progress)[oid := total] && total == old(Total(oid)) + bytes
    {
      total := (if oid in progress then progress[oid] else 0) + bytes;
      progress := progress[oid := total];
    }

    /** The completion loop of `_multipart_upload`: in whatever order the parts finish, the totals add up to the
        object. */
    method ReportParts(oid: string, objectSize: nat, partSize: nat, order: seq<nat>)
      requires objectSize >= 1 && partSize >= 1 && oid !in progress
      requires multiset(order) == multiset(Ascending(PartCount(objectSize, partSize)))
      modifies this
      ensures oid in progress && progress[oid] == objectSize
      ensures forall other :: other != oid ==> (other in progress <==> other in old(progress))
      ensures forall other :: other != oid && other in progress ==> progress[other] == old(progress)[other]
    {
      for n := 0 to |order|
        invariant Total(oid) == Reported(Lengths(objectSize, partSize), order[..n])
        invariant n > 0 ==> oid in progress
        invariant forall other :: other != oid ==> (other in progress <==> other in old(progress))
        invariant forall other :: other != oid && other in progress ==> progress[other] == old(progress)[other]
      {
        assert order[..n + 1][..n] == order[..n];
        var total := AddProgress(oid, Min(partSize, objectSize - (order[n] - 1) * partSize));
      }
      assert order[..|order|] == order;
      OrderIsIrrelevant(Lengths(objectSize, partSize), order, Ascending(PartCount(objectSize, partSize)));
      AscendingReports(objectSize, partSize, PartCount(objectSize, partSize));
      assert |order| > 0 by {
        assert |multiset(order)| == |Ascending(PartCount(objectSize, partSize))|;
      }
    }
  }
}

/**
 * The two sources of nondeterminism the entities draw on: `datetime.today()` and `uuid4()`.
 * Both are objects whose state advances with every call.
 */
module Oracles {
  import opened Numerals
  import opened Timestamps

  /** The `i`-th reading is a valid instant. */
  ghost predicate ValidAt(reading: nat -> Timestamp, i: nat)
  {
    ValidStamp(reading(i))
  }

  /** The reading after the `i`-th is not earlier than it. */
  ghost predicate NotBack(reading: nat -> Timestamp, i: nat)
  {
    !Before(reading(i + 1), reading(i))
  }

  /** The reading after the `i`-th is later than it. */
  ghost predicate Ahead(reading: nat -> Timestamp, i: nat)
  {
    Before(reading(i), reading(i + 1))
  }

  /** Every reading is a valid instant, and no reading is earlier than the one before it. */
  ghost predicate Monotone(reading: nat -> Timestamp)
  {
    && (forall i: nat :: ValidAt(reading, i))
    && (forall i: nat :: NotBack(reading, i))
  }

  /** Each reading is later than the one before it. */
  ghost predicate Advancing(reading: nat -> Timestamp)
  {
    forall i: nat :: Ahead(reading, i)
  }

  /** A monotone clock never goes backwards over any number of readings. */
  lemma {:induction false} MonotoneOver(reading: nat -> Timestamp, i: nat, j: nat)
    requires Monotone(reading) && i <= j
    ensures !Before(reading(j), reading(i))
    decreases j - i
  {
    if i < j {
      MonotoneOver(reading, i + 1, j);
      assert NotBack(reading, i);
      BeforeOrder(reading(j), reading(i + 1), reading(i));
      BeforeOrder(reading(j), reading(i), reading(i + 1));
    }
  }

  /** An advancing clock gives strictly later readings over any number of readings. */
  lemma {:induction false} AdvancingOver(reading: nat -> Timestamp, i: nat, j: nat)
    requires Advancing(reading) && i < j
    ensures Before(reading(i), reading(j))
    decreases j - i
  {
    assert Ahead(reading, i);
    if i + 1 < j {
      AdvancingOver(reading, i + 1, j);
      BeforeOrder(reading(i), reading(i + 1), reading(j));
    }
  }

  /** `datetime.today()`: the clock's readings, handed out one per call. */
  class Clock {
    const reading: nat -> Timestamp
    var ticks: nat

    /** Any reading function: the local clock may go back (a daylight-saving change, a reset). */
    constructor (reading: nat -> Timestamp)
      ensures this.reading == reading && ticks == 0
    {
      this.reading := reading;
      ticks := 0;
    }

    method Today() returns (t: Timestamp)
      modifies this
      ensures t == reading(old(ticks)) && ticks == old(ticks) + 1
    {
      t := reading(ticks);
      ticks := ticks + 1;
    }
  }

  /**
   * The identifier of the `n`-th draw: 32 hexadecimal digits grouped 8-4-4-4-12, the text shape
   * of `str(uuid4())`.
   */
  function IdAt(n: nat): string
  {
    var h := Pad(n, 32, 16);
    HexDigitsAtLeast(n);
    h[..8] + "-" + h[8..12] + "-" + h[12..16] + "-" + h[16..20] + "-" + h[20..]
  }

  lemma HexDigitsAtLeast(n: nat)
    ensures |Pad(n, 32, 16)| >= 32
  {
  }

  /** The hexadecimal digits of an identifier, its dashes taken out. */
  function Undashed(s: string): string
    requires |s| >= 36
  {
    s[..8] + s[9..13] + s[14..18] + s[19..23] + s[24..]
  }

  lemma UndashedId(n: nat)
    ensures |IdAt(n)| >= 36 && Undashed(IdAt(n)) == Pad(n, 32, 16)
  {
    var h := Pad(n, 32, 16);
    HexDigitsAtLeast(n);
    var s := IdAt(n);
    assert s == h[..8] + "-" + h[8..12] + "-" + h[12..16] + "-" + h[16..20] + "-" + h[20..];
    assert s[..8] == h[..8];
    assert s[9..13] == h[8..12];
    assert s[14..18] == h[12..16];
    assert s[19..23] == h[16..20];
    assert s[24..] == h[20..];
    assert h == h[..8] + h[8..12] + h[12..16] + h[16..20] + h[20..];
  }

  /** Different draws give different identifiers, so two fresh entities never share an id. */
  lemma IdsDistinct(m: nat, n: nat)
    requires m != n
    ensures IdAt(m) != IdAt(n)
  {
    UndashedId(m);
    UndashedId(n);
    PadRoundTrip(m, 32, 16);
    PadRoundTrip(n, 32, 16);
  }

  /** `uuid4()`: a supply of identifiers, one per call. */
  class IdSupply {
    var drawn: nat

    constructor ()
      ensures drawn == 0
    {
      drawn := 0;
    }

    method Uuid4() returns (id: string)
      modifies this
      ensures id == IdAt(old(drawn)) && drawn == old(drawn) + 1
    {
      id := IdAt(drawn);
      drawn := drawn + 1;
    }
  }
}

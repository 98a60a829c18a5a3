/** The anti-replay window of an inbound ESP SA: a bitmap of 64-bit words that is
    shifted in place as the highest accepted sequence number advances.  The class is
    proved to refine the plain set of accepted numbers (section 3.4.3 of RFC 4303). */
module Replay {
  import opened Bytes

  const MIN_WINDOW := 64
  const MAX_WINDOW := 0x10_0000

  /** An unsigned 64-bit word as its bits, bit 0 the least significant.  The three
      machine operations the bitmap needs are defined bit by bit. */
  type Word = w: seq<bool> | |w| == 64 witness seq(64, _ => false)

  function Zero(): Word {
    seq(64, _ => false)
  }

  function One(): Word {
    seq(64, (o: nat) => o == 0)
  }

  function Shl(w: Word, n: nat): Word {
    seq(64, (o: nat) => n <= o < 64 && w[o - n])
  }

  function Shr(w: Word, n: nat): Word {
    seq(64, (o: nat) => o + n < 64 && w[o + n])
  }

  function Or(a: Word, b: Word): Word {
    seq(64, (o: nat) => o < 64 && (a[o] || b[o]))
  }

  /** Bit o of the whole bitmap. */
  predicate BitAt(b: seq<Word>, o: nat)
    requires o < 64 * |b|
  {
    b[o / 64][o % 64]
  }

  /** The bitmap moved towards higher offsets by n bits, the vacated low bits zero. */
  ghost predicate ShiftedBy(now: seq<Word>, was: seq<Word>, n: nat) {
    && |now| == |was|
    && forall o: nat :: o < 64 * |was| ==> BitAt(now, o) == (n <= o && BitAt(was, o - n))
  }

  /** Word i of the bitmap shifted by 64 * words + bits, as the copy, carry and clear
      cases build it. */
  function ShiftedWord(was: seq<Word>, words: nat, bits: nat, i: nat): Word
    requires i < |was| && bits < 64
  {
    if i < words then Zero()
    else if bits == 0 then was[i - words]
    else if i == words then Shl(was[0], bits)
    else Or(Shl(was[i - words], bits), Shr(was[i - words - 1], 64 - bits))
  }

  lemma ShiftedWordAt(was: seq<Word>, words: nat, bits: nat, i: nat, k: nat)
    requires i < |was| && bits < 64 && k < 64
    ensures i >= words && k >= bits ==>
              ShiftedWord(was, words, bits, i)[k] == was[i - words][k - bits]
    ensures i > words && k < bits ==>
              ShiftedWord(was, words, bits, i)[k] == was[i - words - 1][64 + k - bits]
    ensures i < words || (i == words && k < bits) ==> !ShiftedWord(was, words, bits, i)[k]
  {
    if i > words && bits > 0 {
      var hi, lo := Shl(was[i - words], bits), Shr(was[i - words - 1], 64 - bits);
      assert Or(hi, lo)[k] == (hi[k] || lo[k]);
      assert hi[k] == (bits <= k && was[i - words][k - bits]);
      assert lo[k] == (k + (64 - bits) < 64 && was[i - words - 1][k + (64 - bits)]);
    }
  }

  lemma Split(words: int, bits: nat)
    requires bits < 64
    ensures (64 * words + bits) / 64 == words && (64 * words + bits) % 64 == bits
  {}

  lemma ShiftedWordsAreBitShift(was: seq<Word>, now: seq<Word>, n: nat)
    requires |now| == |was|
    requires forall i :: 0 <= i < |was| ==> now[i] == ShiftedWord(was, n / 64, n % 64, i)
    ensures ShiftedBy(now, was, n)
  {
    var words, bits := n / 64, n % 64;
    forall o: nat | o < 64 * |was|
      ensures BitAt(now, o) == (n <= o && BitAt(was, o - n))
    {
      var i, k := o / 64, o % 64;
      assert now[i] == ShiftedWord(was, words, bits, i);
      ShiftedWordAt(was, words, bits, i, k);
      if k >= bits {
        Split(i - words, k - bits);
      } else {
        Split(i - words - 1, 64 + k - bits);
      }
    }
  }

  /** shiftUp: shifts the bitmap in place, a word at a time from the top down. */
  method ShiftUp(b: array<Word>, n: nat)
    modifies b
    ensures ShiftedBy(b[..], old(b[..]), n)
  {
    ghost var was := b[..];
    if n == 0 {
      return;
    }
    var words := n / 64;
    var bits := n % 64;
    if words >= b.Length {
      for i := 0 to b.Length
        invariant forall j :: 0 <= j < i ==> b[j] == Zero()
      {
        b[i] := Zero();
      }
    } else {
      if bits == 0 {
        forall i | words <= i < b.Length {
          b[i] := b[i - words];
        }
      } else {
        var i := b.Length - 1;
        while i > words
          invariant words <= i < b.Length
          invariant forall j :: 0 <= j <= i ==> b[j] == was[j]
          invariant forall j :: i < j < b.Length ==> b[j] == ShiftedWord(was, words, bits, j)
        {
          b[i] := Or(Shl(b[i - words], bits), Shr(b[i - words - 1], 64 - bits));
          i := i - 1;
        }
        b[words] := Shl(b[0], bits);
      }
      for i := 0 to words
        invariant forall j :: 0 <= j < i ==> b[j] == Zero()
        invariant forall j :: words <= j < b.Length ==> b[j] == ShiftedWord(was, words, bits, j)
      {
        b[i] := Zero();
      }
    }
    ShiftedWordsAreBitShift(was, b[..], n);
  }

  // ----- the plain specification: a set of accepted numbers -----

  /** What a receiver has accepted so far; last is the highest, 0 when there is none. */
  datatype Seen = Seen(last: nat, accepted: set<nat>)

  const NOTHING := Seen(0, {})

  predicate Fresh(s: Seen, size: nat, num: nat) {
    num != 0 && num !in s.accepted && (num > s.last || s.last - num < size)
  }

  function Record(s: Seen, size: nat, num: nat): Seen {
    if Fresh(s, size, num) then Seen(if num > s.last then num else s.last, s.accepted + {num}) else s
  }

  /** Highest really is the highest. */
  ghost predicate Coherent(s: Seen) {
    && (forall q :: q in s.accepted ==> 0 < q <= s.last)
    && (s.last > 0 ==> s.last in s.accepted)
  }

  /** The set after a whole sequence of calls. */
  function RecordAll(s: Seen, size: nat, calls: seq<nat>): Seen
    decreases calls
  {
    if calls == [] then s else RecordAll(Record(s, size, calls[0]), size, calls[1..])
  }

  lemma {:induction false} RecordAllSplit(s: Seen, size: nat, a: seq<nat>, b: seq<nat>)
    ensures RecordAll(s, size, a + b) == RecordAll(RecordAll(s, size, a), size, b)
    decreases a
  {
    if a == [] {
      assert a + b == b;
    } else {
      assert (a + b)[1..] == a[1..] + b;
      RecordAllSplit(Record(s, size, a[0]), size, a[1..], b);
    }
  }

  /** Over every sequence of calls: the k-th call is accepted exactly when its number
      is nonzero, no earlier call with that number was accepted, and it is above the
      highest number accepted so far or less than the window size below it. */
  lemma {:induction false} AcceptedExactlyWhen(size: nat, calls: seq<nat>, k: nat)
    requires k < |calls|
    ensures var before := RecordAll(NOTHING, size, calls[..k]);
            && Coherent(before)
            && (Fresh(before, size, calls[k]) <==>
                 && calls[k] != 0
                 && (forall j :: 0 <= j < k && calls[j] == calls[k] ==> !AcceptedAt(size, calls, j))
                 && (calls[k] > before.last || before.last - calls[k] < size))
    decreases k
  {
    var before := RecordAll(NOTHING, size, calls[..k]);
    AcceptedSet(size, calls, k);
    forall j | 0 <= j < k && calls[j] == calls[k] && AcceptedAt(size, calls, j)
      ensures calls[k] in before.accepted
    {}
  }

  /** The j-th call of a sequence is accepted. */
  ghost predicate AcceptedAt(size: nat, calls: seq<nat>, j: nat)
    requires j < |calls|
  {
    Fresh(RecordAll(NOTHING, size, calls[..j]), size, calls[j])
  }

  /** The accepted set is exactly the numbers of the accepted calls. */
  lemma {:induction false} AcceptedSet(size: nat, calls: seq<nat>, k: nat)
    requires k <= |calls|
    ensures Coherent(RecordAll(NOTHING, size, calls[..k]))
    ensures forall q :: q in RecordAll(NOTHING, size, calls[..k]).accepted <==>
                        exists j: nat :: j < k && calls[j] == q && AcceptedAt(size, calls, j)
  {
    if k > 0 {
      AcceptedSet(size, calls, k - 1);
      assert calls[..k] == calls[..k - 1] + [calls[k - 1]];
      RecordAllSplit(NOTHING, size, calls[..k - 1], [calls[k - 1]]);
      var before := RecordAll(NOTHING, size, calls[..k - 1]);
      assert RecordAll(NOTHING, size, calls[..k]) == Record(before, size, calls[k - 1]);
      assert AcceptedAt(size, calls, k - 1) <==> Fresh(before, size, calls[k - 1]);
    }
  }

  // ----- the bitmap window -----

  /** Bit o stands for sequence number last - o; below 1 there are no numbers. */
  ghost predicate Represents(b: seq<Word>, s: Seen) {
    forall o: nat :: o < 64 * |b| ==> (BitAt(b, o) <==> s.last - o in s.accepted)
  }

  /** The bitmap with one more bit set. */
  function WithBit(b: seq<Word>, o: nat): seq<Word>
    requires o < 64 * |b|
  {
    b[o / 64 := Or(b[o / 64], Shl(One(), o % 64))]
  }

  lemma WithBitAt(b: seq<Word>, offset: nat, o: nat)
    requires offset < 64 * |b| && o < 64 * |b|
    ensures BitAt(WithBit(b, offset), o) == (o == offset || BitAt(b, o))
  {
    assert o == offset <==> o / 64 == offset / 64 && o % 64 == offset % 64;
  }

  lemma AdvanceRepresents(was: seq<Word>, shifted: seq<Word>, s: Seen, num: nat)
    requires |was| > 0 && Coherent(s) && Represents(was, s) && num > s.last
    requires ShiftedBy(shifted, was, num - s.last)
    ensures Represents(WithBit(shifted, 0), Seen(num, s.accepted + {num}))
  {
    forall o: nat | o < 64 * |was|
      ensures BitAt(WithBit(shifted, 0), o) <==> num - o in s.accepted + {num}
    {
      WithBitAt(shifted, 0, o);
      assert BitAt(shifted, o) == (num - s.last <= o && BitAt(was, o - (num - s.last)));
    }
  }

  lemma InsertRepresents(was: seq<Word>, s: Seen, offset: nat)
    requires Represents(was, s) && offset < 64 * |was| && offset <= s.last
    ensures Represents(WithBit(was, offset), Seen(s.last, s.accepted + {s.last - offset}))
  {
    forall o: nat | o < 64 * |was|
      ensures BitAt(WithBit(was, offset), o) <==> s.last - o in s.accepted + {s.last - offset}
    {
      WithBitAt(was, offset, o);
    }
  }

  class ReplayWindow {
    var size: nat
    var last: uint32
    var bits: array<Word>
    /** Every number accepted since the window was made. */
    ghost var accepted: set<nat>

    ghost function Abs(): Seen
      reads this
    {
      Seen(last, accepted)
    }

    ghost predicate Valid()
      reads this, bits
    {
      && size == 64 * bits.Length
      && MIN_WINDOW <= size <= MAX_WINDOW
      && Coherent(Abs())
      && Represents(bits[..], Abs())
    }

    /** NewReplayWindow: the size is rounded up to whole words and clamped. */
    constructor (requested: uint32)
      ensures Valid() && fresh(bits) && Abs() == NOTHING
      ensures requested <= MIN_WINDOW ==> size == MIN_WINDOW
      ensures MIN_WINDOW <= requested <= MAX_WINDOW ==> requested <= size < requested + 64
      ensures requested >= MAX_WINDOW ==> size == MAX_WINDOW
    {
      var s := if requested < MIN_WINDOW then MIN_WINDOW else requested;
      s := if s > MAX_WINDOW then MAX_WINDOW else s;
      var words := (s + 63) / 64;
      size := words * 64;
      last := 0;
      bits := new Word[words](_ => Zero());
      accepted := {};
    }

    method SetBit(offset: nat)
      requires size == 64 * bits.Length && offset < size
      modifies bits
      ensures bits[..] == WithBit(old(bits[..]), offset)
    {
      bits[offset / 64] := Or(bits[offset / 64], Shl(One(), offset % 64));
    }

    /** The case of Accept for a number above every earlier one. */
    method Advance(num: uint32)
      requires Valid() && num > last
      modifies this`last, this`accepted, bits
      ensures Valid() && Abs() == Seen(num, old(accepted) + {num})
    {
      ghost var was := bits[..];
      ShiftUp(bits, num - last);
      AdvanceRepresents(was, bits[..], Abs(), num);
      last := num;
      accepted := accepted + {num};
      SetBit(0);
    }

    /** Accept: called after the ICV was verified; records the number when it is new. */
    method Accept(num: uint32) returns (ok: bool)
      requires Valid()
      modifies this`last, this`accepted, bits
      ensures Valid()
      ensures ok == Fresh(old(Abs()), size, num)
      ensures Abs() == Record(old(Abs()), size, num)
    {
      if num == 0 {
        return false;
      }
      if num > last {
        Advance(num);
        return true;
      }
      if num == last {
        return false;
      }
      var offset := last - num;
      if offset >= size {
        return false;
      }
      ghost var was := bits[..];
      assert BitAt(was, offset) <==> num in accepted;
      if bits[offset / 64][offset % 64] {
        return false;
      }
      InsertRepresents(was, Abs(), offset);
      SetBit(offset);
      accepted := accepted + {num};
      return true;
    }
  }
}

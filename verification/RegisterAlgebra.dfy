/** Shift registers with exclusive-or feedback, over any carrier that has the few laws listed here.
    Nothing in this module looks inside a register: src/util.c enters only through Crc32.dfy. */
module RegisterAlgebra {

  function Iterate<G>(f: G -> G, start: G, steps: nat): G
    decreases steps, start
  {
    if steps == 0 then start else Iterate(f, f(start), steps - 1)
  }

  lemma {:induction false} IterateLast<G>(f: G -> G, start: G, steps: nat)
    ensures Iterate(f, start, steps + 1) == f(Iterate(f, start, steps))
    decreases steps
  {
    if steps > 0 {
      IterateLast(f, f(start), steps - 1);
    }
  }

  /** Two step functions that differ by an added mask at every step, the mask being halved each time,
      differ by the halved mask at the end. */
  lemma {:induction false} IterateMirrors<G(!new)>(f: G -> G, g: G -> G, halve: G -> G, odd: G -> bool,
                                                   xor: (G, G) -> G,
                                                   start: G, mask: G, steps: nat)
    requires forall r, m :: odd(m) ==> xor(f(r), halve(m)) == g(xor(r, m))
    requires forall k: nat :: k < steps ==> odd(Iterate(halve, mask, k))
    ensures xor(Iterate(f, start, steps), Iterate(halve, mask, steps)) == Iterate(g, xor(start, mask), steps)
    decreases steps
  {
    if steps > 0 {
      assert odd(Iterate(halve, mask, 0));
      forall k: nat | k < steps - 1 ensures odd(Iterate(halve, halve(mask), k)) {
        assert odd(Iterate(halve, mask, k + 1));
      }
      IterateMirrors(f, g, halve, odd, xor, f(start), halve(mask), steps - 1);
    }
  }

  /** `xor` adds registers, `shift` is one feedback step, `double` moves every bit one place up,
      `bit` is the register holding one message bit in its lowest place, `low` reads that place. */
  datatype Algebra<!G(!new)> =
    Algebra(xor: (G, G) -> G, shift: G -> G, double: G -> G, bit: bool -> G, low: G -> bool, zero: G)
  {
    ghost predicate Group() {
      && (forall a, b, c {:trigger xor(xor(a, b), c)} :: xor(xor(a, b), c) == xor(a, xor(b, c)))
      && (forall a, b :: xor(a, b) == zero <==> a == b)
    }

    ghost predicate Linear() {
      && shift(zero) == zero
      && double(zero) == zero
      && (forall a, b {:trigger shift(xor(a, b))} :: shift(xor(a, b)) == xor(shift(a), shift(b)))
      && (forall a, b {:trigger double(xor(a, b))} :: double(xor(a, b)) == xor(double(a), double(b)))
    }

    ghost predicate Reversible() {
      && (forall a :: shift(a) == zero ==> a == zero)
      && (forall b, w :: low(xor(bit(b), double(w))) == b)
    }

    ghost predicate Laws() {
      Group() && Linear() && Reversible()
    }

    ghost function Shifts(register: G, steps: nat): G {
      Iterate(shift, register, steps)
    }

    /** The register after the message bits `bits`, first bit first. */
    ghost function Feed(register: G, bits: seq<bool>): G
      decreases |bits|
    {
      if |bits| == 0 then register else Feed(shift(xor(register, bit(bits[0]))), bits[1..])
    }

    /** The bits as one register, first bit lowest. */
    ghost function Word(bits: seq<bool>): G
      decreases |bits|
    {
      if |bits| == 0 then zero else xor(bit(bits[0]), double(Word(bits[1..])))
    }

    /** `register` can be doubled `places` times without losing a bit. */
    ghost predicate Room(register: G, places: nat)
      decreases places
    {
      places == 0 || (shift(double(register)) == register && Room(double(register), places - 1))
    }

    ghost function Place(b: bool, rest: G): G {
      xor(bit(b), double(rest))
    }

    lemma WordOfEight(b: seq<bool>)
      requires |b| == 8
      ensures Word(b) == Place(b[0], Place(b[1], Place(b[2], Place(b[3],
                         Place(b[4], Place(b[5], Place(b[6], Place(b[7], zero))))))))
    {
      assert b[7..][1..] == [] && b[6..][1..] == b[7..] && b[5..][1..] == b[6..] && b[4..][1..] == b[5..];
      assert b[3..][1..] == b[4..] && b[2..][1..] == b[3..] && b[1..][1..] == b[2..];
      var w4 := Word(b[4..]);
      assert w4 == Place(b[4], Place(b[5], Place(b[6], Place(b[7], zero)))) by {
        assert Word(b[7..]) == Place(b[7], Word(b[7..][1..]));
        assert Word(b[6..]) == Place(b[6], Word(b[7..]));
        assert Word(b[5..]) == Place(b[5], Word(b[6..]));
      }
      assert Word(b[3..]) == Place(b[3], w4);
      assert Word(b[2..]) == Place(b[2], Word(b[3..]));
      assert Word(b[1..]) == Place(b[1], Word(b[2..]));
    }

    lemma {:induction false} FeedAppend(register: G, first: seq<bool>, second: seq<bool>)
      ensures Feed(register, first + second) == Feed(Feed(register, first), second)
      decreases |first|
    {
      if |first| == 0 {
        assert first + second == second;
      } else {
        assert (first + second)[1..] == first[1..] + second;
        FeedAppend(shift(xor(register, bit(first[0]))), first[1..], second);
      }
    }

    lemma XorZero(a: G)
      requires Group()
      ensures xor(a, zero) == a
    {
      var z := xor(a, zero);
      assert xor(xor(a, a), a) == xor(a, xor(a, a));
      assert xor(z, a) == xor(xor(zero, a), a) == xor(zero, xor(a, a)) == xor(zero, zero) == zero;
    }

    /** Adding the same word to two registers keeps them apart. */
    lemma XorInjective(a: G, b: G, w: G)
      requires Group() && a != b
      ensures xor(a, w) != xor(b, w) && xor(w, a) != xor(w, b)
    {
      assert xor(xor(a, w), w) == xor(a, zero) && xor(xor(b, w), w) == xor(b, zero);
      assert xor(w, xor(w, a)) == xor(zero, a) && xor(w, xor(w, b)) == xor(zero, b);
      assert xor(xor(a, a), a) == xor(a, xor(a, a)) && xor(xor(b, b), b) == xor(b, xor(b, b));
      XorZero(a);
      XorZero(b);
    }

    lemma {:induction false} ShiftsLinear(a: G, b: G, steps: nat)
      requires Linear()
      ensures Shifts(xor(a, b), steps) == xor(Shifts(a, steps), Shifts(b, steps))
      decreases steps
    {
      if steps > 0 {
        ShiftsLinear(shift(a), shift(b), steps - 1);
      }
    }

    lemma {:induction false} ShiftsInjective(a: G, b: G, steps: nat)
      requires Laws() && a != b
      ensures Shifts(a, steps) != Shifts(b, steps)
      decreases steps
    {
      if steps > 0 {
        assert xor(shift(a), shift(b)) == shift(xor(a, b));
        ShiftsInjective(shift(a), shift(b), steps - 1);
      }
    }

    lemma {:induction false} FeedInjective(a: G, b: G, bits: seq<bool>)
      requires Laws() && a != b
      ensures Feed(a, bits) != Feed(b, bits)
      decreases |bits|
    {
      if |bits| > 0 {
        var w := bit(bits[0]);
        XorInjective(a, b, w);
        assert xor(shift(xor(a, w)), shift(xor(b, w))) == shift(xor(xor(a, w), xor(b, w)));
        FeedInjective(shift(xor(a, w)), shift(xor(b, w)), bits[1..]);
      }
    }

    lemma {:induction false} RoomXor(a: G, b: G, places: nat)
      requires Linear() && Room(a, places) && Room(b, places)
      ensures Room(xor(a, b), places)
      decreases places
    {
      if places > 0 {
        RoomXor(double(a), double(b), places - 1);
      }
    }

    lemma {:induction false} RoomFewer(a: G, places: nat, fewer: nat)
      requires Room(a, places) && fewer <= places
      ensures Room(a, fewer)
      decreases places
    {
      if fewer > 0 {
        RoomFewer(double(a), places - 1, fewer - 1);
      }
    }

    lemma {:induction false} RoomZero(places: nat)
      requires Linear()
      ensures Room(zero, places)
      decreases places
    {
      if places > 0 {
        assert double(xor(zero, zero)) == xor(double(zero), double(zero));
        assert shift(xor(zero, zero)) == xor(shift(zero), shift(zero));
        RoomZero(places - 1);
      }
    }

    ghost predicate BitsHaveRoom(room: nat) {
      Room(bit(true), room) && Room(bit(false), room)
    }

    lemma RoomForBit(b: bool, w: G, places: nat, room: nat)
      requires Linear() && BitsHaveRoom(room) && 0 < places <= room + 1 && Room(w, places)
      ensures Room(xor(bit(b), double(w)), places - 1) && shift(double(w)) == w
    {
      if b {
        RoomFewer(bit(true), room, places - 1);
      } else {
        RoomFewer(bit(false), room, places - 1);
      }
      RoomXor(bit(b), double(w), places - 1);
    }

    lemma {:induction false} WordRoom(bits: seq<bool>, room: nat, places: nat)
      requires Linear() && BitsHaveRoom(room)
      requires |bits| + places == room + 1
      ensures Room(Word(bits), places)
      decreases |bits|
    {
      if |bits| == 0 {
        RoomZero(places);
      } else {
        WordRoom(bits[1..], room, places + 1);
        RoomForBit(bits[0], Word(bits[1..]), places + 1, room);
      }
    }

    lemma ShiftMovesWord(register: G, b: bool, w: G)
      requires Group() && Linear() && shift(double(w)) == w
      ensures xor(shift(xor(register, bit(b))), w) == shift(xor(register, xor(bit(b), double(w))))
    {
      assert xor(xor(register, bit(b)), double(w)) == xor(register, xor(bit(b), double(w)));
    }

    /** Feeding bits one at a time equals adding their word first, as long as the register has room for them. */
    lemma {:induction false} FeedIsWordFirst(register: G, bits: seq<bool>, room: nat)
      requires Laws() && BitsHaveRoom(room)
      requires |bits| <= room + 1
      ensures Feed(register, bits) == Shifts(xor(register, Word(bits)), |bits|)
      decreases |bits|
    {
      if |bits| == 0 {
        XorZero(register);
      } else {
        var rest := bits[1..];
        WordRoom(rest, room, room + 1 - |rest|);
        RoomForBit(bits[0], Word(rest), room + 1 - |rest|, room);
        ShiftMovesWord(register, bits[0], Word(rest));
        FeedIsWordFirst(shift(xor(register, bit(bits[0]))), rest, room);
      }
    }

    lemma {:induction false} WordInjective(a: seq<bool>, b: seq<bool>, room: nat)
      requires Laws() && BitsHaveRoom(room)
      requires |a| == |b| <= room + 1 && a != b
      ensures Word(a) != Word(b)
      decreases |a|
    {
      if a[0] == b[0] {
        assert a == [a[0]] + a[1..] && b == [b[0]] + b[1..];
        WordInjective(a[1..], b[1..], room);
        WordRoom(a[1..], room, room + 2 - |a|);
        WordRoom(b[1..], room, room + 2 - |a|);
        XorInjective(double(Word(a[1..])), double(Word(b[1..])), bit(a[0]));
      }
    }

    /** Two messages of one length that differ only inside a window the register has room for
        leave different registers, whatever comes before and after the window. */
    lemma BurstChangesRegister(register: G, before: seq<bool>, a: seq<bool>, b: seq<bool>, after: seq<bool>, room: nat)
      requires Laws() && BitsHaveRoom(room)
      requires |a| == |b| <= room + 1 && a != b
      ensures Feed(register, before + a + after) != Feed(register, before + b + after)
    {
      var r := Feed(register, before);
      FeedAppend(register, before, a);
      FeedAppend(register, before, b);
      FeedAppend(register, before + a, after);
      FeedAppend(register, before + b, after);
      FeedIsWordFirst(r, a, room);
      FeedIsWordFirst(r, b, room);
      WordInjective(a, b, room);
      XorInjective(Word(a), Word(b), r);
      ShiftsInjective(xor(r, Word(a)), xor(r, Word(b)), |a|);
      FeedInjective(Feed(r, a), Feed(r, b), after);
    }

    /** The same, told by where the two messages may differ. */
    lemma WindowChangesRegister(register: G, a: seq<bool>, b: seq<bool>, from: nat, room: nat)
      requires Laws() && BitsHaveRoom(room)
      requires |a| == |b| && a != b
      requires forall k :: 0 <= k < |a| && a[k] != b[k] ==> from <= k < from + room + 1
      ensures Feed(register, a) != Feed(register, b)
    {
      var before, x, y, after := SplitAtWindow(a, b, from, room + 1);
      BurstChangesRegister(register, before, x, y, after, room);
    }
  }

  /** Two bit strings that differ only inside a window, as a common front, two windows and a common rest. */
  lemma SplitAtWindow(a: seq<bool>, b: seq<bool>, from: nat, width: nat)
    returns (before: seq<bool>, x: seq<bool>, y: seq<bool>, after: seq<bool>)
    requires |a| == |b| && a != b
    requires forall k :: 0 <= k < |a| && a[k] != b[k] ==> from <= k < from + width
    ensures a == before + x + after && b == before + y + after
    ensures |x| == |y| <= width && x != y
  {
    var k := SomeDifference(a, b);
    var to := if from + width <= |a| then from + width else |a|;
    before, x, y, after := a[..from], a[from..to], b[from..to], a[to..];
    SameOutside(a, b, from, to);
    Rejoin(a, from, to);
    Rejoin(b, from, to);
  }

  lemma SomeDifference(a: seq<bool>, b: seq<bool>) returns (k: nat)
    requires |a| == |b| && a != b
    ensures k < |a| && a[k] != b[k]
  {
    k :| 0 <= k < |a| && a[k] != b[k];
  }

  lemma SameOutside(a: seq<bool>, b: seq<bool>, from: nat, to: nat)
    requires |a| == |b| && from <= to <= |a|
    requires forall k :: 0 <= k < |a| && a[k] != b[k] ==> from <= k < to
    ensures a[..from] == b[..from] && a[to..] == b[to..]
  {
    forall k | 0 <= k < from ensures a[k] == b[k] {
    }
    forall k | to <= k < |a| ensures a[k] == b[k] {
    }
  }

  lemma Rejoin(s: seq<bool>, from: nat, to: nat)
    requires from <= to <= |s|
    ensures s == s[..from] + s[from..to] + s[to..]
  {
  }
}

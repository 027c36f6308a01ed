/** Time windows and identifier generation. */
module DateTime {
  import opened Domain

  // ---------------------------------------------------------------- Windows

  /** The overlap test of the half-open windows [aStart, aEnd) and [bStart, bEnd). */
  predicate Overlaps(aStart: int, aEnd: int, bStart: int, bEnd: int) {
    aStart < bEnd && bStart < aEnd
  }

  predicate Covers(start: int, end: int, instant: int) {
    start <= instant < end
  }

  function AddMinutes(time: int, minutes: int): int {
    time + minutes * 60
  }

  /** Whole minutes from `other` to `time`; the division truncates toward zero. */
  function MinutesSince(time: int, other: int): int {
    var seconds := time - other;
    if 0 <= seconds then seconds / 60 else -((-seconds) / 60)
  }

  lemma MinutesRecovered(time: int, minutes: int)
    ensures MinutesSince(AddMinutes(time, minutes), time) == minutes
  {
    if minutes < 0 {
      assert (-minutes * 60) / 60 == -minutes;
    } else {
      assert (minutes * 60) / 60 == minutes;
    }
  }

  /** The minutes between two times are those that fit between them, counted from zero whichever comes
      first. */
  lemma MinutesFit(time: int, other: int)
    ensures var minutes := MinutesSince(time, other);
            if other <= time then 0 <= minutes && 60 * minutes <= time - other < 60 * minutes + 60
            else minutes <= 0 && 60 * -minutes <= other - time < 60 * -minutes + 60
  {
  }

  ghost predicate ShareInstant(aStart: int, aEnd: int, bStart: int, bEnd: int) {
    exists x :: Covers(aStart, aEnd, x) && Covers(bStart, bEnd, x)
  }

  /** The overlap test means "some instant lies in both windows" exactly when neither window
      is an empty or inverted one strictly inside the other. No caller rejects such windows. */
  lemma OverlapIsSharedInstant(aStart: int, aEnd: int, bStart: int, bEnd: int)
    ensures ShareInstant(aStart, aEnd, bStart, bEnd) ==> Overlaps(aStart, aEnd, bStart, bEnd)
    ensures (Overlaps(aStart, aEnd, bStart, bEnd) <==> ShareInstant(aStart, aEnd, bStart, bEnd))
       <==> !(bStart < aEnd <= aStart < bEnd) && !(aStart < bEnd <= bStart < aEnd)
  {
    var latest := if aStart < bStart then bStart else aStart;
    if Overlaps(aStart, aEnd, bStart, bEnd) && aStart < aEnd && bStart < bEnd {
      assert Covers(aStart, aEnd, latest) && Covers(bStart, bEnd, latest);
    }
  }

  /** An empty window is reported as overlapping one it shares no instant with. */
  lemma EmptyWindowStillOverlaps()
    ensures Overlaps(5, 5, 3, 8) && !ShareInstant(5, 5, 3, 8)
  {
  }

  // -------------------------------------------------------------- Rendering

  function DigitChar(d: nat): char
    requires d < 10
  {
    "0123456789"[d]
  }

  predicate IsDigit(c: char) {
    '0' <= c <= '9'
  }

  predicate AllDigits(s: string) {
    forall i :: 0 <= i < |s| ==> IsDigit(s[i])
  }

  function Decimal(n: nat): (s: string)
    ensures s != [] && AllDigits(s)
  {
    if n < 10 then [DigitChar(n)] else Decimal(n / 10) + [DigitChar(n % 10)]
  }

  function Zeros(k: nat): string {
    seq(k, _ => '0')
  }

  /** The prefix followed by the counter, padded with zeros to at least four digits. */
  function Render(prefix: string, n: nat): string {
    var digits := Decimal(n);
    prefix + (if |digits| < 4 then Zeros(4 - |digits|) else "") + digits
  }

  /** The number a digit string denotes. */
  function Value(s: string): nat
    requires AllDigits(s)
  {
    if s == [] then 0
    else 10 * Value(s[..|s| - 1]) + (s[|s| - 1] as int - '0' as int)
  }

  lemma {:induction false} ValueOfPadded(k: nat, s: string)
    requires AllDigits(s)
    ensures AllDigits(Zeros(k) + s) && Value(Zeros(k) + s) == Value(s)
  {
    var padded := Zeros(k) + s;
    if s != [] {
      assert padded[..|padded| - 1] == Zeros(k) + s[..|s| - 1];
      ValueOfPadded(k, s[..|s| - 1]);
    } else if k > 0 {
      assert padded[..k - 1] == Zeros(k - 1) + s;
      ValueOfPadded(k - 1, s);
    }
  }

  lemma {:induction false} ValueOfDecimal(n: nat)
    ensures Value(Decimal(n)) == n
  {
    if n >= 10 {
      ValueOfDecimal(n / 10);
      assert Decimal(n)[..|Decimal(n)| - 1] == Decimal(n / 10);
    } else {
      assert Value([]) == 0;
      assert [DigitChar(n)][..0] == [];
    }
  }

  /** An identifier of this generator's shape: the prefix and then at least one digit. */
  predicate Matches(prefix: string, id: string) {
    |prefix| < |id| && id[..|prefix|] == prefix && AllDigits(id[|prefix|..])
  }

  /** What an identifier of the shape is, put together. */
  lemma MatchesMeans(prefix: string, id: string)
    ensures Matches(prefix, id) <==> exists digits: string ::
      digits != [] && id == prefix + digits && forall i :: 0 <= i < |digits| ==> '0' <= digits[i] <= '9'
  {
    if Matches(prefix, id) {
      assert id == prefix + id[|prefix|..];
    }
    if digits: string :| digits != [] && id == prefix + digits
                         && forall i :: 0 <= i < |digits| ==> '0' <= digits[i] <= '9' {
      assert id[|prefix|..] == digits;
    }
  }

  function Suffix(prefix: string, id: string): nat
    requires Matches(prefix, id)
  {
    Value(id[|prefix|..])
  }

  /** A rendered identifier reads back as the counter it was made from. */
  lemma RenderReadsBack(prefix: string, n: nat)
    ensures Matches(prefix, Render(prefix, n))
    ensures Suffix(prefix, Render(prefix, n)) == n
  {
    var digits := Decimal(n);
    var k := if |digits| < 4 then 4 - |digits| else 0;
    ValueOfPadded(k, digits);
    ValueOfDecimal(n);
    assert Render(prefix, n)[..|prefix|] == prefix;
    assert Render(prefix, n)[|prefix|..] == Zeros(k) + digits;
  }

  lemma {:induction false} NoLeadingZero(n: nat)
    requires n > 0
    ensures Decimal(n)[0] != '0'
  {
    if n >= 10 {
      NoLeadingZero(n / 10);
    }
  }

  /** The number is written with at least four digits, and with no more than it needs beyond that. Its
      prefix, its digits and its value (`RenderReadsBack`) then leave just one text. */
  lemma RenderIsPadded(prefix: string, n: nat)
    ensures |prefix| + 4 <= |Render(prefix, n)| && Render(prefix, n)[..|prefix|] == prefix
    ensures var digits := Render(prefix, n)[|prefix|..];
            AllDigits(digits) && (|digits| > 4 ==> digits[0] != '0')
  {
    RenderReadsBack(prefix, n);
    var digits := Decimal(n);
    var k := if |digits| < 4 then 4 - |digits| else 0;
    assert Render(prefix, n)[|prefix|..] == Zeros(k) + digits;
    if |digits| > 4 {
      NoLeadingZero(n);
      assert Zeros(0) + digits == digits;
    }
  }

  lemma RenderedShort()
    ensures Render("AL", 1) == "AL0001" && Render("DL", 90) == "DL0090"
  {
    assert Zeros(3) == "000" && Zeros(2) == "00";
    assert Decimal(1) == "1" && Decimal(90) == "90";
  }

  lemma RenderedLong()
    ensures Render("EM", 45678) == "EM45678"
  {
    assert Decimal(4) == "4";
    assert Decimal(45) == "45";
    assert Decimal(456) == "456";
    assert Decimal(4567) == "4567";
    assert Decimal(45678) == "45678";
  }

  /** Rendering is injective, also past four digits, so a generator never repeats itself. */
  lemma RenderInjective(prefix: string, m: nat, n: nat)
    ensures Render(prefix, m) == Render(prefix, n) <==> m == n
  {
    RenderReadsBack(prefix, m);
    RenderReadsBack(prefix, n);
  }

  // -------------------------------------------------------------- Observing

  /** The counter after one existing identifier has been observed. */
  function Observed(prefix: string, counter: nat, id: string): nat {
    if Matches(prefix, id) && counter <= Suffix(prefix, id) then Suffix(prefix, id) + 1 else counter
  }

  function ObservedAll(prefix: string, counter: nat, ids: seq<string>): nat {
    if ids == [] then counter
    else Observed(prefix, ObservedAll(prefix, counter, ids[..|ids| - 1]), ids[|ids| - 1])
  }

  /** `top` is the maximum of the start value and one more than every matching suffix. */
  ghost predicate IsHighWater(prefix: string, start: nat, ids: set<string>, top: nat) {
    && start <= top
    && (forall id :: id in ids && Matches(prefix, id) ==> Suffix(prefix, id) < top)
    && (top == start || exists id :: id in ids && Matches(prefix, id) && top == Suffix(prefix, id) + 1)
  }

  /** Observing a list leaves the counter at the maximum, whatever the order of the list. */
  lemma {:induction false} ObservedIsHighWater(prefix: string, start: nat, ids: seq<string>)
    ensures IsHighWater(prefix, start, Members(ids), ObservedAll(prefix, start, ids))
  {
    if ids != [] {
      var front, last := ids[..|ids| - 1], ids[|ids| - 1];
      ObservedIsHighWater(prefix, start, front);
      assert ids == front + [last];
      assert Members(ids) == Members(front) + {last};
    }
  }

  lemma ObservingIgnoresOrder(prefix: string, start: nat, ids: seq<string>, ids': seq<string>)
    requires Members(ids) == Members(ids')
    ensures ObservedAll(prefix, start, ids) == ObservedAll(prefix, start, ids')
  {
    ObservedIsHighWater(prefix, start, ids);
    ObservedIsHighWater(prefix, start, ids');
  }

  /** After observing, no identifier generated from then on is one of those observed. */
  lemma ObservedNeverRegenerated(prefix: string, start: nat, ids: seq<string>, n: nat)
    requires ObservedAll(prefix, start, ids) <= n
    ensures Render(prefix, n) !in ids
  {
    ObservedIsHighWater(prefix, start, ids);
    RenderReadsBack(prefix, n);
    assert Render(prefix, n) in ids ==> Render(prefix, n) in Members(ids);
  }

  class IdGenerator {
    const prefix: string
    var counter: nat

    constructor (prefix: string, start: nat)
      ensures this.prefix == prefix && counter == start
    {
      this.prefix := prefix;
      counter := start;
    }

    method Next() returns (id: string)
      modifies this
      ensures id == Render(prefix, old(counter)) && counter == old(counter) + 1
    {
      id := Render(prefix, counter);
      counter := counter + 1;
    }

    method Observe(existingId: string)
      modifies this
      ensures counter == Observed(prefix, old(counter), existingId)
    {
      if |existingId| <= |prefix| { return; }
      if existingId[..|prefix|] != prefix { return; }
      var numPart := existingId[|prefix|..];
      if !AllDigits(numPart) { return; }
      var value := Value(numPart);
      if value >= counter { counter := value + 1; }
    }
  }
}

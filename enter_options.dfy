// EnterOptions: the input delays of the auto-enter, each a base delay in
// milliseconds with a randomisation percentage, and the worst- and best-case
// time to type a word. All of it is C# int arithmetic, so the sums and
// products wrap around and the divisions truncate (module Int32). The random
// draw of GetDelay is not taken: the model returns the interval it is drawn
// from.
module Entering {
  import opened Int32
  import opened Wrappers

  /** The object of custom parameters handed to the input simulator, known by its identity. */
  datatype CustomParameter = CustomParameter(id: nat)

  /** The option record. */
  datatype EnterOptions = EnterOptions(
    delayEnabled: bool,
    startDelay: int32,
    startDelayRandom: int32,
    delayBeforeNextChar: int32,
    delayBeforeNextCharRandom: int32,
    delayBeforeKeyUp: int32,
    delayBeforeKeyUpRandom: int32,
    customParameters: Option<CustomParameter>)

  /**
   * What the constructor guarantees: a record with delays switched off holds
   * no delay, no randomisation and no custom parameters, and a percentage is
   * only kept beside a positive base delay.
   */
  predicate Gated(o: EnterOptions)
  {
    && (!o.delayEnabled ==>
          && o.startDelay == 0 && o.delayBeforeNextChar == 0 && o.delayBeforeKeyUp == 0
          && o.customParameters.None?)
    && (o.startDelay <= 0 ==> o.startDelayRandom == 0)
    && (o.delayBeforeNextChar <= 0 ==> o.delayBeforeNextCharRandom == 0)
    && (o.delayBeforeKeyUp <= 0 ==> o.delayBeforeKeyUpRandom == 0)
  }

  /** The constructor: the arguments are taken only when delays are enabled, and each percentage only beside a positive delay. */
  function Make(delayEnabled: bool, startDelay: int32, startDelayRandom: int32,
                       delayBeforeNextChar: int32, delayBeforeNextCharRandom: int32,
                       delayBeforeKeyUp: int32, delayBeforeKeyUpRandom: int32,
                       customParameter: Option<CustomParameter>): (o: EnterOptions)
    ensures Gated(o)
    ensures o.delayEnabled == delayEnabled
    ensures !delayEnabled ==> o == EnterOptions(false, 0, 0, 0, 0, 0, 0, None)
    ensures delayEnabled ==>
      && o.startDelay == startDelay && o.delayBeforeNextChar == delayBeforeNextChar
      && o.delayBeforeKeyUp == delayBeforeKeyUp && o.customParameters == customParameter
    ensures delayEnabled ==>
      && (startDelay > 0 ==> o.startDelayRandom == startDelayRandom)
      && (delayBeforeNextChar > 0 ==> o.delayBeforeNextCharRandom == delayBeforeNextCharRandom)
      && (delayBeforeKeyUp > 0 ==> o.delayBeforeKeyUpRandom == delayBeforeKeyUpRandom)
  {
    if !delayEnabled then EnterOptions(false, 0, 0, 0, 0, 0, 0, None)
    else
      EnterOptions(true,
        startDelay, if startDelay > 0 then startDelayRandom else 0,
        delayBeforeNextChar, if delayBeforeNextChar > 0 then delayBeforeNextCharRandom else 0,
        delayBeforeKeyUp, if delayBeforeKeyUp > 0 then delayBeforeKeyUpRandom else 0,
        customParameter)
  }

  /** Rebuilding a constructed record from its own fields gives it back, so the gating is all the constructor does. */
  lemma MakeKeepsGated(o: EnterOptions)
    requires Gated(o)
    ensures Make(o.delayEnabled, o.startDelay, o.startDelayRandom, o.delayBeforeNextChar, o.delayBeforeNextCharRandom,
                 o.delayBeforeKeyUp, o.delayBeforeKeyUpRandom, o.customParameters) == o
  {
  }

  /** The private GetMaxDelay(delay, random): delay + delay * random / 100. */
  function MaxDelayOf(delay: int32, random: int32): int32
  {
    Add(delay, Div(Mul(delay, random), 100))
  }

  /** The private GetMinDelay(delay, random): delay - delay * random / 100. */
  function MinDelayOf(delay: int32, random: int32): int32
  {
    Sub(delay, Div(Mul(delay, random), 100))
  }

  /**
   * For a non-negative delay and percentage whose product and maximum do not
   * overflow, the bounds are the exact ones and enclose the delay; the
   * minimum is negative only for a percentage above 100.
   */
  lemma SpreadBounds(delay: int32, random: int32)
    requires delay >= 0 && random >= 0
    requires InRange(delay * random) && InRange(ExactBound(delay, random))
    ensures MaxDelayOf(delay, random) == ExactBound(delay, random)
    ensures MinDelayOf(delay, random) == delay - delay * random / 100
    ensures -MaxDelayOf(delay, random) <= MinDelayOf(delay, random) <= delay <= MaxDelayOf(delay, random)
    ensures random <= 100 ==> 0 <= MinDelayOf(delay, random)
  {
    MulMonotone(0, random, delay);
    QuotientBound(delay * random, 100);
    if random <= 100 {
      MulMonotone(random, 100, delay);
      DivMonotone(delay * random, delay * 100, 100);
      assert delay * 100 / 100 == delay;
    }
  }

  lemma DivMonotone(a: int, b: int, d: int)
    requires 0 <= a <= b && d > 0
    ensures a / d <= b / d
  {
    var qa, qb := a / d, b / d;
    assert a == qa * d + a % d;
    assert b == qb * d + b % d;
    if qa > qb {
      MulMonotone(qb + 1, qa, d);
    }
  }

  /** The interval a delay is drawn from, or the delay itself when none is drawn. */
  datatype Delay = Fixed(value: int32) | Drawn(low: int32, highExclusive: int32)

  /** The values a delay can take: Random.Next(low, high) answers low when the two are equal. */
  predicate CanTake(d: Delay, v: int)
  {
    match d
    case Fixed(x) => v == x
    case Drawn(lo, hi) => if lo == hi then v == lo else lo <= v < hi
  }

  /**
   * The private GetDelay: 0 with delays off, the delay itself when it is not
   * positive, and otherwise a draw from [min, max] (Random.Next with the
   * exclusive bound max + 1), which throws ArgumentOutOfRangeException when
   * that bound falls below min.
   */
  function GetDelay(o: EnterOptions, delay: int32, random: int32): (r: Result<Delay>)
    ensures !o.delayEnabled ==> r == Success(Fixed(0))
    ensures o.delayEnabled && delay <= 0 ==> r == Success(Fixed(delay))
    ensures r.Failure? <==> o.delayEnabled && delay > 0 && MinDelayOf(delay, random) > Add(MaxDelayOf(delay, random), 1)
    ensures r.Success? && r.value.Drawn? ==>
      r.value == Drawn(MinDelayOf(delay, random), Add(MaxDelayOf(delay, random), 1)) && r.value.low <= r.value.highExclusive
  {
    if !o.delayEnabled then Success(Fixed(0))
    else if delay <= 0 then Success(Fixed(delay))
    else
      var low, high := MinDelayOf(delay, random), Add(MaxDelayOf(delay, random), 1);
      if low > high then Failure(ArgumentOutOfRange) else Success(Drawn(low, high))
  }

  /**
   * Without overflow, every value GetDelay can draw lies between the minimum
   * and the maximum delay, which enclose the base delay.
   */
  lemma DrawWithinBounds(o: EnterOptions, delay: int32, random: int32, v: int)
    requires o.delayEnabled && delay > 0 && random >= 0
    requires InRange(delay * random) && InRange(delay + delay * random / 100 + 1)
    ensures GetDelay(o, delay, random).Success?
    ensures CanTake(GetDelay(o, delay, random).value, v) ==> MinDelayOf(delay, random) <= v <= MaxDelayOf(delay, random)
  {
    SpreadBounds(delay, random);
  }

  /** The largest delay with no randomisation overflows the exclusive bound, so the draw throws. */
  lemma LargestDelayThrows(o: EnterOptions)
    requires o.delayEnabled
    ensures GetDelay(o, Max, 0) == Failure(ArgumentOutOfRange)
  {
    assert MaxDelayOf(Max, 0) == Max;
    assert MinDelayOf(Max, 0) == Max;
    assert Add(Max, 1) == Min;
  }

  function GetMaxStartDelay(o: EnterOptions): int32 { MaxDelayOf(o.startDelay, o.startDelayRandom) }
  function GetMaxDelayBeforeNextChar(o: EnterOptions): int32 { MaxDelayOf(o.delayBeforeNextChar, o.delayBeforeNextCharRandom) }
  function GetMaxDelayBeforeKeyUp(o: EnterOptions): int32 { MaxDelayOf(o.delayBeforeKeyUp, o.delayBeforeKeyUpRandom) }
  function GetMinStartDelay(o: EnterOptions): int32 { MinDelayOf(o.startDelay, o.startDelayRandom) }
  function GetMinDelayBeforeNextChar(o: EnterOptions): int32 { MinDelayOf(o.delayBeforeNextChar, o.delayBeforeNextCharRandom) }
  function GetMinDelayBeforeKeyUp(o: EnterOptions): int32 { MinDelayOf(o.delayBeforeKeyUp, o.delayBeforeKeyUpRandom) }

  /** string.IsNullOrEmpty; a missing string is None. */
  predicate IsNullOrEmpty(input: Option<string>)
  {
    input.None? || |input.value| == 0
  }

  /** string.Length as an int: no .NET string is longer than int.MaxValue, so the wrap never changes a real length. */
  function Length(input: Option<string>): int32
  {
    if input.None? then 0 else Wrap(|input.value|)
  }

  /** The typing time of a word from a start delay and the two per-char delays: start + len * (next + keyUp). */
  function TypingTime(input: Option<string>, start: int32, next: int32, keyUp: int32): int32
  {
    Add(start, if IsNullOrEmpty(input) then 0 else Mul(Length(input), Add(next, keyUp)))
  }

  /** GetMaxDelay(input): the worst-case time to type input, 0 with delays off, just the start delay for an empty input. */
  function GetMaxDelay(o: EnterOptions, input: Option<string>): (r: int32)
    ensures !o.delayEnabled ==> r == 0
    ensures o.delayEnabled && IsNullOrEmpty(input) ==> r == GetMaxStartDelay(o)
  {
    if o.delayEnabled then TypingTime(input, GetMaxStartDelay(o), GetMaxDelayBeforeNextChar(o), GetMaxDelayBeforeKeyUp(o)) else 0
  }

  /** GetMinDelay(input): the best-case time to type input, 0 with delays off, just the start delay for an empty input. */
  function GetMinDelay(o: EnterOptions, input: Option<string>): (r: int32)
    ensures !o.delayEnabled ==> r == 0
    ensures o.delayEnabled && IsNullOrEmpty(input) ==> r == GetMinStartDelay(o)
  {
    if o.delayEnabled then TypingTime(input, GetMinStartDelay(o), GetMinDelayBeforeNextChar(o), GetMinDelayBeforeKeyUp(o)) else 0
  }

  /** No field is negative. */
  predicate NonNegative(o: EnterOptions)
  {
    && o.startDelay >= 0 && o.startDelayRandom >= 0
    && o.delayBeforeNextChar >= 0 && o.delayBeforeNextCharRandom >= 0
    && o.delayBeforeKeyUp >= 0 && o.delayBeforeKeyUpRandom >= 0
  }

  /** The exact worst case of one delay: delay + delay * random / 100 without wrap-around. */
  function ExactBound(delay: int, random: int): int
  {
    delay + delay * random / 100
  }

  /** The exact worst-case typing time of n chars, computed without wrap-around. */
  function ExactMaxDelay(o: EnterOptions, n: nat): int
  {
    ExactBound(o.startDelay, o.startDelayRandom)
      + n * (ExactBound(o.delayBeforeNextChar, o.delayBeforeNextCharRandom) + ExactBound(o.delayBeforeKeyUp, o.delayBeforeKeyUpRandom))
  }

  /** The products of the three percentages and the exact worst case fit in an int. */
  predicate NoOverflow(o: EnterOptions, n: nat)
  {
    && InRange(o.startDelay * o.startDelayRandom)
    && InRange(o.delayBeforeNextChar * o.delayBeforeNextCharRandom)
    && InRange(o.delayBeforeKeyUp * o.delayBeforeKeyUpRandom)
    && InRange(ExactMaxDelay(o, n))
  }

  /** No percentage is above 100. */
  predicate PercentagesAtMost100(o: EnterOptions)
  {
    o.startDelayRandom <= 100 && o.delayBeforeNextCharRandom <= 100 && o.delayBeforeKeyUpRandom <= 100
  }

  /**
   * With non-negative fields and no overflow, the worst case is the exact
   * sum and the best case does not exceed it: GetMinDelay <= GetMaxDelay.
   * The best case is itself non-negative when no percentage is above 100.
   */
  lemma MinDelayNotAboveMax(o: EnterOptions, input: Option<string>)
    requires o.delayEnabled && NonNegative(o)
    requires input.Some? ==> |input.value| <= Max
    requires NoOverflow(o, if input.None? then 0 else |input.value|)
    ensures GetMaxDelay(o, input) == ExactMaxDelay(o, if input.None? then 0 else |input.value|)
    ensures GetMinDelay(o, input) <= GetMaxDelay(o, input)
    ensures PercentagesAtMost100(o) ==> 0 <= GetMinDelay(o, input)
  {
    SpreadNonNegative(o.startDelay, o.startDelayRandom);
    SpreadNonNegative(o.delayBeforeNextChar, o.delayBeforeNextCharRandom);
    SpreadNonNegative(o.delayBeforeKeyUp, o.delayBeforeKeyUpRandom);
    if IsNullOrEmpty(input) {
      assert ExactMaxDelay(o, if input.None? then 0 else |input.value|) == ExactBound(o.startDelay, o.startDelayRandom);
      SpreadBounds(o.startDelay, o.startDelayRandom);
    } else {
      NonEmptyMinNotAboveMax(o, input);
    }
  }

  /** MinDelayNotAboveMax for a non-empty input, where all three delays count. */
  lemma NonEmptyMinNotAboveMax(o: EnterOptions, input: Option<string>)
    requires o.delayEnabled && NonNegative(o)
    requires input.Some? && 0 < |input.value| <= Max
    requires NoOverflow(o, |input.value|)
    ensures GetMaxDelay(o, input) == ExactMaxDelay(o, |input.value|)
    ensures GetMinDelay(o, input) <= GetMaxDelay(o, input)
    ensures PercentagesAtMost100(o) ==> 0 <= GetMinDelay(o, input)
  {
    OptionBounds(o, |input.value|);
    TypingTimeOrdered(input, GetMinStartDelay(o), GetMinDelayBeforeNextChar(o), GetMinDelayBeforeKeyUp(o),
                      GetMaxStartDelay(o), GetMaxDelayBeforeNextChar(o), GetMaxDelayBeforeKeyUp(o));
    assert GetMaxDelay(o, input) == TypingTime(input, GetMaxStartDelay(o), GetMaxDelayBeforeNextChar(o), GetMaxDelayBeforeKeyUp(o));
    assert GetMinDelay(o, input) == TypingTime(input, GetMinStartDelay(o), GetMinDelayBeforeNextChar(o), GetMinDelayBeforeKeyUp(o));
  }

  /**
   * Without overflow, each worst-case delay is exact, each best case lies
   * within it in magnitude, and the exact total is the sum of the worst
   * cases.
   */
  lemma OptionBounds(o: EnterOptions, n: nat)
    requires NonNegative(o) && n > 0 && NoOverflow(o, n)
    ensures GetMaxStartDelay(o) == ExactBound(o.startDelay, o.startDelayRandom)
    ensures GetMaxDelayBeforeNextChar(o) == ExactBound(o.delayBeforeNextChar, o.delayBeforeNextCharRandom)
    ensures GetMaxDelayBeforeKeyUp(o) == ExactBound(o.delayBeforeKeyUp, o.delayBeforeKeyUpRandom)
    ensures -(GetMaxStartDelay(o) as int) <= GetMinStartDelay(o) <= GetMaxStartDelay(o)
    ensures -(GetMaxDelayBeforeNextChar(o) as int) <= GetMinDelayBeforeNextChar(o) <= GetMaxDelayBeforeNextChar(o)
    ensures -(GetMaxDelayBeforeKeyUp(o) as int) <= GetMinDelayBeforeKeyUp(o) <= GetMaxDelayBeforeKeyUp(o)
    ensures PercentagesAtMost100(o) ==> 0 <= GetMinStartDelay(o) && 0 <= GetMinDelayBeforeNextChar(o) && 0 <= GetMinDelayBeforeKeyUp(o)
    ensures ExactMaxDelay(o, n) == GetMaxStartDelay(o) + n * (GetMaxDelayBeforeNextChar(o) + GetMaxDelayBeforeKeyUp(o))
    ensures InRange(ExactMaxDelay(o, n))
  {
    var s := ExactBound(o.startDelay, o.startDelayRandom);
    var c := ExactBound(o.delayBeforeNextChar, o.delayBeforeNextCharRandom);
    var k := ExactBound(o.delayBeforeKeyUp, o.delayBeforeKeyUpRandom);
    SpreadNonNegative(o.startDelay, o.startDelayRandom);
    SpreadNonNegative(o.delayBeforeNextChar, o.delayBeforeNextCharRandom);
    SpreadNonNegative(o.delayBeforeKeyUp, o.delayBeforeKeyUpRandom);
    assert ExactMaxDelay(o, n) == s + n * (c + k);
    ScaledBounds(n, c + k, c + k);
    SpreadBounds(o.startDelay, o.startDelayRandom);
    SpreadBounds(o.delayBeforeNextChar, o.delayBeforeNextCharRandom);
    SpreadBounds(o.delayBeforeKeyUp, o.delayBeforeKeyUpRandom);
  }

  /**
   * For a non-empty input, typing with delays no larger in magnitude than
   * non-negative ones takes no longer, and nothing wraps while the larger
   * exact total fits.
   */
  lemma TypingTimeOrdered(input: Option<string>, s': int32, c': int32, k': int32, s: int32, c: int32, k: int32)
    requires input.Some? && 0 < |input.value| <= Max
    requires -(s as int) <= s' <= s && -(c as int) <= c' <= c && -(k as int) <= k' <= k
    requires InRange(s + |input.value| * (c + k))
    ensures TypingTime(input, s, c, k) == s + |input.value| * (c + k)
    ensures TypingTime(input, s', c', k') <= TypingTime(input, s, c, k)
    ensures 0 <= s' && 0 <= c' && 0 <= k' ==> 0 <= TypingTime(input, s', c', k')
  {
    var n := |input.value|;
    assert Length(input) == n;
    TypingTimeBounds(n, s', c', k', s, c, k);
  }

  /** A non-negative delay and percentage make a non-negative spread. */
  lemma SpreadNonNegative(delay: int, random: int)
    requires delay >= 0 && random >= 0
    ensures 0 <= delay * random / 100 && delay <= ExactBound(delay, random)
  {
    MulMonotone(0, random, delay);
    QuotientBound(delay * random, 100);
  }

  /**
   * Typing n >= 1 chars with delays no larger in magnitude takes no longer,
   * and nothing wraps while the larger total fits; with non-negative delays
   * it takes no negative time.
   */
  lemma TypingTimeBounds(n: nat, s': int, c': int, k': int, s: int, c: int, k: int)
    requires n >= 1 && -s <= s' <= s && -c <= c' <= c && -k <= k' <= k
    requires InRange(s + n * (c + k))
    ensures InRange(c + k) && InRange(n * (c + k)) && InRange(c' + k') && InRange(n * (c' + k'))
    ensures InRange(s' + n * (c' + k')) && s' + n * (c' + k') <= s + n * (c + k)
    ensures 0 <= s' && 0 <= c' && 0 <= k' ==> 0 <= s' + n * (c' + k')
  {
    ScaledBounds(n, c' + k', c + k);
  }

  /** Scaling by n >= 1 keeps a value within the scaled bound of a larger magnitude, and the bound above its own. */
  lemma ScaledBounds(n: nat, x': int, x: int)
    requires n >= 1 && -x <= x' <= x
    ensures x <= n * x && -(n * x) <= n * x' <= n * x
    ensures 0 <= x' ==> 0 <= n * x'
  {
    MulMonotone(1, n, x);
    MulMonotone(x', x, n);
    MulMonotone(-x, x', n);
    if 0 <= x' {
      MulMonotone(0, n, x');
    }
  }

  /** Equals: all seven fields and the custom parameters agree. */
  predicate Equals(o: EnterOptions, other: EnterOptions)
  {
    && o.delayEnabled == other.delayEnabled
    && o.startDelay == other.startDelay && o.startDelayRandom == other.startDelayRandom
    && o.delayBeforeNextChar == other.delayBeforeNextChar && o.delayBeforeNextCharRandom == other.delayBeforeNextCharRandom
    && o.delayBeforeKeyUp == other.delayBeforeKeyUp && o.delayBeforeKeyUpRandom == other.delayBeforeKeyUpRandom
    && o.customParameters == other.customParameters
  }

  /** Equals is the equality of records. */
  lemma EqualsIsEquality(o: EnterOptions, other: EnterOptions)
    ensures Equals(o, other) <==> o == other
  {
  }
}

/** `RedisGenerateCodeUtil`: fixed-length codes made from a Redis counter.
    The counter store is a plain map from key to value and expiry; `INCRBY`
    atomicity and the passing of time are not modelled. */
module GenerateCode {
  import opened Results
  import opened Errors

  const RedisKeyPrefix: string := "com:dmall:generate:code:"

  // ---- decimal text, as `String.valueOf(long)` writes it ----

  predicate IsDigit(c: char) {
    '0' <= c <= '9'
  }

  predicate AllDigits(s: string) {
    forall i :: 0 <= i < |s| ==> IsDigit(s[i])
  }

  function DigitChar(d: nat): (c: char)
    requires d < 10
    ensures IsDigit(c) && c as int - '0' as int == d
  {
    ('0' as int + d) as char
  }

  /** The decimal digits of `n`, without leading zeros ("0" for zero). */
  function Digits(n: nat): (s: string)
    ensures |s| > 0 && AllDigits(s)
  {
    if n < 10 then [DigitChar(n)] else Digits(n / 10) + [DigitChar(n % 10)]
  }

  /** `String.valueOf(value)` for a `long`. */
  function LongToString(value: int): string {
    if value < 0 then "-" + Digits(-value) else Digits(value)
  }

  /** The number a string of digits denotes. */
  function DecimalValue(s: string): nat
    requires AllDigits(s)
  {
    if s == [] then 0 else DecimalValue(s[..|s| - 1]) * 10 + (s[|s| - 1] as int - '0' as int)
  }

  function Pow10(k: nat): (p: nat)
    ensures p > 0
  {
    if k == 0 then 1 else 10 * Pow10(k - 1)
  }

  function Zeros(k: nat): (s: string)
    ensures |s| == k && AllDigits(s)
    ensures forall i :: 0 <= i < k ==> s[i] == '0'
  {
    if k == 0 then "" else Zeros(k - 1) + "0"
  }

  /** `codeCovering(value, length)`: left-padded with '0' to `length`, or
      cut to its last `length` characters. A negative length makes
      `substring` throw. */
  function CodeCovering(value: int, length: int): (r: Result<string, Thrown>)
    ensures r.Err? <==> length < 0
    ensures r.Ok? ==> |r.value| == length
    ensures r.Ok? && |LongToString(value)| <= length ==>
              r.value[length - |LongToString(value)|..] == LongToString(value)
              && forall i :: 0 <= i < length - |LongToString(value)| ==> r.value[i] == '0'
    ensures r.Ok? && |LongToString(value)| > length ==>
              LongToString(value) == LongToString(value)[..|LongToString(value)| - length] + r.value
  {
    var text := LongToString(value);
    if |text| > length then
      if length < 0 then Err(Raw(IndexOutOfBounds, "begin " + LongToString(|text| - length)))
      else Ok(text[|text| - length..])
    else Ok(Zeros(length - |text|) + text)
  }

  /** The example in the source: (5012, 3) gives "012". */
  lemma CodeCoveringExample()
    ensures CodeCovering(5012, 3) == Ok("012")
  {
    assert Digits(5012) == "5012" by {
      assert Digits(5) == "5";
      assert Digits(50) == "50";
      assert Digits(501) == "501";
    }
  }

  // ---- the arithmetic behind the numeric reading of a code ----

  lemma {:induction false} DigitsValue(n: nat)
    ensures DecimalValue(Digits(n)) == n
  {
    if n >= 10 {
      DigitsValue(n / 10);
      var s := Digits(n / 10) + [DigitChar(n % 10)];
      assert s[..|s| - 1] == Digits(n / 10);
    }
  }

  lemma {:induction false} ValueBound(s: string)
    requires AllDigits(s)
    ensures DecimalValue(s) < Pow10(|s|)
  {
    if s != [] {
      ValueBound(s[..|s| - 1]);
    }
  }

  lemma {:induction false} ValueConcat(a: string, b: string)
    requires AllDigits(a) && AllDigits(b)
    ensures AllDigits(a + b)
    ensures DecimalValue(a + b) == DecimalValue(a) * Pow10(|b|) + DecimalValue(b)
  {
    if b != [] {
      var ab := a + b;
      var b' := b[..|b| - 1];
      assert ab[..|ab| - 1] == a + b';
      assert ab[|ab| - 1] == b[|b| - 1];
      ValueConcat(a, b');
      ShiftDigit(DecimalValue(a), DecimalValue(b'), b[|b| - 1] as int - '0' as int, Pow10(|b'|));
    } else {
      assert a + b == a;
    }
  }

  /** Appending a digit to a number written after a prefix. */
  lemma ShiftDigit(va: nat, vb: nat, d: int, p: nat)
    ensures (va * p + vb) * 10 + d == va * (10 * p) + (vb * 10 + d)
  {
    assert (va * p) * 10 == va * (10 * p);
  }

  lemma {:induction false} MulAtLeast(a: nat, p: nat)
    requires a >= 1
    ensures a * p >= p
  {
    if a > 1 {
      MulAtLeast(a - 1, p);
      assert a * p == (a - 1) * p + p;
    }
  }

  /** Euclidean remainder of q * p + m for a remainder m already below p. */
  lemma {:induction false} ModOfMultiplePlus(q: nat, p: nat, m: nat)
    requires m < p
    ensures (q * p + m) % p == m
  {
    var x := q * p + m;
    var d, r := x / p, x % p;
    assert x == d * p + r && 0 <= r < p;
    if d < q {
      MulAtLeast(q - d, p);
      assert false;
    } else if d > q {
      MulAtLeast(d - q, p);
      assert false;
    }
  }

  lemma {:induction false} ValueOfSuffix(s: string, k: nat)
    requires AllDigits(s) && k <= |s|
    ensures DecimalValue(s[|s| - k..]) == DecimalValue(s) % Pow10(k)
  {
    var a, b := s[..|s| - k], s[|s| - k..];
    assert s == a + b;
    ValueConcat(a, b);
    ValueBound(b);
    ModOfMultiplePlus(DecimalValue(a), Pow10(k), DecimalValue(b));
  }

  /** Left padding with zeros keeps the value, which is below 10^length. */
  lemma {:induction false} PaddedValue(text: string, length: nat)
    requires AllDigits(text) && |text| <= length
    ensures AllDigits(Zeros(length - |text|) + text)
    ensures DecimalValue(Zeros(length - |text|) + text) == DecimalValue(text) % Pow10(length)
  {
    var z := Zeros(length - |text|);
    var v := DecimalValue(text);
    ValueConcat(z, text);
    ZerosValue(length - |text|);
    assert DecimalValue(z + text) == v;
    ValueBound(text);
    Pow10Monotone(|text|, length);
    ModOfMultiplePlus(0, Pow10(length), v);
    assert 0 * Pow10(length) + v == v;
  }

  /** For a non-negative counter and a non-negative length, the code read as
      a decimal number is the counter modulo 10^length: padding keeps the
      value and cutting keeps its low digits. */
  lemma {:induction false} CodeCoveringValue(value: nat, length: nat)
    ensures CodeCovering(value, length).Ok?
    ensures AllDigits(CodeCovering(value, length).value)
    ensures DecimalValue(CodeCovering(value, length).value) == value % Pow10(length)
  {
    var text := Digits(value);
    assert LongToString(value) == text;
    DigitsValue(value);
    if |text| > length {
      ValueOfSuffix(text, length);
      assert CodeCovering(value, length).value == text[|text| - length..];
    } else {
      PaddedValue(text, length);
      assert CodeCovering(value, length).value == Zeros(length - |text|) + text;
    }
  }

  lemma {:induction false} ZerosValue(k: nat)
    ensures DecimalValue(Zeros(k)) == 0
  {
    if k > 0 {
      var z := Zeros(k);
      assert z[..|z| - 1] == Zeros(k - 1);
      ZerosValue(k - 1);
    }
  }

  lemma {:induction false} Pow10Monotone(i: nat, j: nat)
    requires i <= j
    ensures Pow10(i) <= Pow10(j)
  {
    if i < j {
      Pow10Monotone(i, j - 1);
    }
  }

  // ---- the counter store ----

  /** How a counter key expires: never, at an absolute instant
      (`expireAt`, milliseconds), or after a time span from when it was set
      (`expire`). */
  datatype Expiry = Persistent | ExpireAt(instant: int) | ExpireAfter(time: int, unit: TimeUnit)

  datatype Counter = Counter(value: int, expiry: Expiry)

  type CounterStore = map<string, Counter>

  /** `REDIS_KEY_PREFIX + length + ":" + businessType`. */
  function CounterKey(length: int, businessType: string): (k: string)
    ensures var n := |RedisKeyPrefix| + |LongToString(length)|;
            && |k| == n + 1 + |businessType|
            && k[..|RedisKeyPrefix|] == RedisKeyPrefix
            && k[|RedisKeyPrefix|..n] == LongToString(length)
            && k[n] == ':' && k[n + 1..] == businessType
  {
    RedisKeyPrefix + LongToString(length) + ":" + businessType
  }

  /** `String.valueOf` of a long writes digits and a sign, never ':'. */
  lemma LongToStringNoColon(value: int)
    ensures ':' !in LongToString(value)
  {
    var s := LongToString(value);
    if value < 0 {
      assert forall i :: 1 <= i < |s| ==> s[i] == Digits(-value)[i - 1];
    }
  }

  /** Different lengths are written differently. */
  lemma LongToStringInjective(a: int, b: int)
    requires LongToString(a) == LongToString(b)
    ensures a == b
  {
    if a < 0 { assert LongToString(a)[0] == '-'; }
    if b < 0 { assert LongToString(b)[0] == '-'; }
    if a < 0 && b < 0 {
      assert Digits(-a) == LongToString(a)[1..];
      assert Digits(-b) == LongToString(b)[1..];
      DigitsValue(-a);
      DigitsValue(-b);
    } else if a >= 0 && b >= 0 {
      DigitsValue(a);
      DigitsValue(b);
    }
  }

  /** Every generator counts `(length, businessType)` on its own counter:
      two different pairs never share a key, even when the business type
      itself contains ':'. */
  lemma CounterKeyInjective(length1: int, businessType1: string, length2: int, businessType2: string)
    requires CounterKey(length1, businessType1) == CounterKey(length2, businessType2)
    ensures length1 == length2 && businessType1 == businessType2
  {
    var k := CounterKey(length1, businessType1);
    var s1, s2 := LongToString(length1), LongToString(length2);
    var p := |RedisKeyPrefix|;
    LongToStringNoColon(length1);
    LongToStringNoColon(length2);
    assert s1 == k[p..p + |s1|] == s2;
    LongToStringInjective(length1, length2);
  }

  /** `INCRBY key change`: an absent key counts from 0 with no expiry; an
      existing key keeps its expiry. */
  function Increment(store: CounterStore, key: string, change: int): (r: CounterStore)
    ensures r.Keys == store.Keys + {key}
    ensures r[key].value == (if key in store then store[key].value else 0) + change
    ensures r[key].expiry == if key in store then store[key].expiry else Persistent
    ensures forall k :: k in store && k != key ==> r[k] == store[k]
  {
    if key in store then store[key := store[key].(value := store[key].value + change)]
    else store[key := Counter(change, Persistent)]
  }

  /** `expire` / `expireAt` on a key that exists. */
  function SetExpiry(store: CounterStore, key: string, expiry: Expiry): (r: CounterStore)
    requires key in store
    ensures r.Keys == store.Keys
    ensures r[key] == Counter(store[key].value, expiry)
    ensures forall k :: k in store && k != key ==> r[k] == store[k]
  {
    store[key := store[key].(expiry := expiry)]
  }

  /** The store after a generator call and the code it returned. */
  datatype Generated = Generated(store: CounterStore, code: Result<string, Thrown>)

  /** What every generator promises about the counter at `key`: it was
      incremented by `change`, other keys are untouched, and the code is the
      new value covered to `length`. */
  ghost predicate Generates(store: CounterStore, key: string, change: int, length: int, g: Generated) {
    && g.store.Keys == store.Keys + {key}
    && g.store[key].value == (if key in store then store[key].value else 0) + change
    && (forall k :: k in store && k != key ==> g.store[k] == store[k])
    && g.code == CodeCovering(g.store[key].value, length)
  }

  /** `shortGenerator(length, change, businessType)`: never sets an expiry. */
  function ShortGenerator(store: CounterStore, length: int, change: int, businessType: string): (g: Generated)
    ensures Generates(store, CounterKey(length, businessType), change, length, g)
    ensures var key := CounterKey(length, businessType);
            g.store[key].expiry == if key in store then store[key].expiry else Persistent
  {
    var key := CounterKey(length, businessType);
    var s1 := Increment(store, key, change);
    Generated(s1, CodeCovering(s1[key].value, length))
  }

  /** `fixDateGenerator(length, change, businessType, date)`: the key then
      expires at `date`. */
  function FixDateGenerator(store: CounterStore, length: int, change: int, businessType: string, date: int): (g: Generated)
    ensures Generates(store, CounterKey(length, businessType), change, length, g)
    ensures g.store[CounterKey(length, businessType)].expiry == ExpireAt(date)
  {
    var key := CounterKey(length, businessType);
    var s1 := Increment(store, key, change);
    var s2 := SetExpiry(s1, key, ExpireAt(date));
    Generated(s2, CodeCovering(s2[key].value, length))
  }

  /** `TimeStrategy`. */
  datatype TimeStrategy = Always | OnlyInit

  /** `generatorByTimeStrategy(length, change, businessType, unit, time, strategy)`.
      A null strategy makes the `switch` throw before anything is written;
      the `default` branch (code 8099) cannot be reached with the two
      constants of the enum. */
  function GeneratorByTimeStrategy(store: CounterStore, length: int, change: int, businessType: string,
                                   unit: TimeUnit, time: int, strategy: Option<TimeStrategy>): (g: Generated)
    ensures strategy.None? ==> g.store == store && g.code.Err? && g.code.error == Raw(NullPointer, "timeStrategy")
    ensures strategy.Some? ==> Generates(store, CounterKey(length, businessType), change, length, g)
    ensures strategy == Some(Always) ==> g.store[CounterKey(length, businessType)].expiry == ExpireAfter(time, unit)
    ensures strategy == Some(OnlyInit) ==>
              var key := CounterKey(length, businessType);
              g.store[key].expiry == if key in store then store[key].expiry else ExpireAfter(time, unit)
  {
    var key := CounterKey(length, businessType);
    match strategy
    case None => Generated(store, Err(Raw(NullPointer, "timeStrategy")))
    case Some(Always) =>
      var s1 := Increment(store, key, change);
      var s2 := SetExpiry(s1, key, ExpireAfter(time, unit));
      Generated(s2, CodeCovering(s2[key].value, length))
    case Some(OnlyInit) =>
      if key !in store then
        var s1 := Increment(store, key, change);
        var s2 := SetExpiry(s1, key, ExpireAfter(time, unit));
        Generated(s2, CodeCovering(s2[key].value, length))
      else
        var s1 := Increment(store, key, change);
        Generated(s1, CodeCovering(s1[key].value, length))
  }

  /** Under ONLY_INIT the expiry set by the first call survives every later
      call: a second call on the same key does not extend it. */
  lemma OnlyInitKeepsFirstExpiry(store: CounterStore, length: int, change1: int, change2: int,
                                 businessType: string, unit: TimeUnit, time1: int, time2: int)
    requires CounterKey(length, businessType) !in store
    ensures var g1 := GeneratorByTimeStrategy(store, length, change1, businessType, unit, time1, Some(OnlyInit));
            var g2 := GeneratorByTimeStrategy(g1.store, length, change2, businessType, unit, time2, Some(OnlyInit));
            g2.store[CounterKey(length, businessType)] == Counter(change1 + change2, ExpireAfter(time1, unit))
  {
  }

  /** Counting from an absent key by a non-negative step, every code a
      short generator hands out is all digits and reads as the counter
      modulo 10^length. */
  lemma {:induction false} ShortGeneratorCodes(store: CounterStore, length: nat, change: nat, businessType: string)
    requires CounterKey(length, businessType) in store ==> store[CounterKey(length, businessType)].value >= 0
    ensures var g := ShortGenerator(store, length, change, businessType);
            var counter := g.store[CounterKey(length, businessType)].value;
            && counter >= 0 && g.code.Ok? && AllDigits(g.code.value)
            && DecimalValue(g.code.value) == counter % Pow10(length)
  {
    var g := ShortGenerator(store, length, change, businessType);
    CodeCoveringValue(g.store[CounterKey(length, businessType)].value, length);
  }
}

/**
 How long a cached entry may be served without asking upstream.

 The clock is a parameter. Integers are unbounded here, so the 64-bit casts of the source are written out:
 `AsI64` is a cast from u64, `Wrap` the wrap-around of a subtraction in a release build.
 */
module Freshness {
  import opened Common

  const TWO_63: int := 0x8000_0000_0000_0000
  const TWO_64: int := 0x1_0000_0000_0000_0000

  /** The response headers that matter; `expires` is the date in seconds since the epoch, if it parses. */
  datatype Headers = Headers(cacheControl: Option<string>, expires: Option<nat>)

  function AsI64(x: nat): int
    requires x < TWO_64
  {
    if x < TWO_63 then x else x - TWO_64
  }

  function Wrap(x: int): int {
    if x < -TWO_63 then x + TWO_64 else if x >= TWO_63 then x - TWO_64 else x
  }

  function SaturatingAdd(x: int, y: int): int {
    Max(-TWO_63, Min(x + y, TWO_63 - 1))
  }

  // ---- Cache-Control ----------------------------------------------------------------------------

  predicate IsBlank(c: char) {
    c == ' ' || c == '\t'
  }

  function Trim(s: string): string {
    if s != "" && IsBlank(s[0]) then Trim(s[1..])
    else if s != "" && IsBlank(s[|s| - 1]) then Trim(s[..|s| - 1])
    else s
  }

  predicate IsDigit(c: char) {
    '0' <= c <= '9'
  }

  function DigitsValue(s: string): nat
    requires forall i :: 0 <= i < |s| ==> IsDigit(s[i])
  {
    if s == "" then 0
    else
      var last := s[|s| - 1];
      assert IsDigit(last);
      10 * DigitsValue(s[..|s| - 1]) + (last - '0') as nat
  }

  function StripPlus(s: string): string {
    if s != "" && s[0] == '+' then s[1..] else s
  }

  /** Parsing into u64: an optional plus sign, then digits, in range. */
  function ParseU64(s: string): (r: Option<nat>)
    ensures r.Some? ==> r.value < TWO_64
  {
    var digits := StripPlus(s);
    if digits != "" && (forall i :: 0 <= i < |digits| ==> IsDigit(digits[i])) && DigitsValue(digits) < TWO_64
    then Some(DigitsValue(digits))
    else None
  }

  const MAX_AGE: string := "max-age="

  /** The first max-age directive decides, even if it does not parse. */
  function FirstMaxAge(directives: seq<string>): (r: Option<nat>)
    ensures r.Some? ==> r.value < TWO_64
  {
    if directives == [] then None
    else
      var d := Trim(directives[0]);
      if MAX_AGE <= d then
        ParseU64(StripPlus(Trim(d[|MAX_AGE|..])))
      else FirstMaxAge(directives[1..])
  }

  function ParseMaxAge(cacheControl: string): (r: Option<nat>)
    ensures r.Some? ==> r.value < TWO_64
  {
    FirstMaxAge(Split(cacheControl, ','))
  }

  predicate ForbidsReuse(cacheControl: string) {
    var directives := Split(cacheControl, ',');
    exists i :: 0 <= i < |directives| && (Trim(directives[i]) == "no-cache" || Trim(directives[i]) == "no-store")
  }

  function Decimal(n: nat): (s: string)
    ensures s != "" && forall i :: 0 <= i < |s| ==> IsDigit(s[i])
  {
    (if n < 10 then "" else Decimal(n / 10)) + ['0' + (n % 10) as char]
  }

  lemma {:induction false} DecimalValue(n: nat)
    ensures DigitsValue(Decimal(n)) == n
  {
    var s := Decimal(n);
    if n < 10 {
      assert s[..|s| - 1] == "";
    } else {
      DecimalValue(n / 10);
      assert s[..|s| - 1] == Decimal(n / 10);
    }
  }

  /** Directives written one after the other, with commas between. */
  function Joined(ds: seq<string>): string
    requires ds != []
  {
    if |ds| == 1 then ds[0] else ds[0] + ("," + Joined(ds[1..]))
  }

  lemma {:induction false} SplitJoined(ds: seq<string>)
    requires ds != [] && forall i :: 0 <= i < |ds| ==> ',' !in ds[i]
    ensures Split(Joined(ds), ',') == ds
    decreases |ds|
  {
    if |ds| == 1 {
      assert Split(ds[0], ',') == [ds[0]];
    } else {
      var tail := "," + Joined(ds[1..]);
      SplitHead(ds[0], tail, ',');
      assert tail[1..] == Joined(ds[1..]);
      SplitJoined(ds[1..]);
      assert [ds[0]] + ds[1..] == ds;
    }
  }

  predicate IsMaxAge(directive: string) {
    MAX_AGE <= Trim(directive)
  }

  lemma {:induction false} FirstDecides(ds: seq<string>, k: nat)
    requires k <= |ds| && forall i :: 0 <= i < k ==> !IsMaxAge(ds[i])
    requires k < |ds| ==> IsMaxAge(ds[k])
    ensures FirstMaxAge(ds) == if k < |ds| then FirstMaxAge([ds[k]]) else None
    decreases k
  {
    if k > 0 {
      FirstDecides(ds[1..], k - 1);
    }
  }

  // ---- header values as they are written --------------------------------------------------------

  predicate Blanks(s: string) {
    forall i :: 0 <= i < |s| ==> s[i] == ' ' || s[i] == '\t'
  }

  /** No blank at either end. */
  predicate Solid(s: string) {
    s != "" ==> s[0] != ' ' && s[0] != '\t' && s[|s| - 1] != ' ' && s[|s| - 1] != '\t'
  }

  /** Trimming takes away the blanks around a text, and nothing else. */
  lemma {:induction false} TrimTakesBlanks(a: string, s: string, b: string)
    requires Blanks(a) && Blanks(b) && Solid(s)
    ensures Trim(a + s + b) == s
    decreases |a| + |b|
  {
    var t := a + s + b;
    if a != "" {
      assert t[0] == a[0] && t[1..] == a[1..] + s + b;
      TrimTakesBlanks(a[1..], s, b);
    } else if b == "" {
      assert t == s;
    } else if s == "" {
      assert t == b && t[1..] == "" + s + b[1..];
      TrimTakesBlanks("", s, b[1..]);
    } else {
      var last := |b| - 1;
      assert t[0] == s[0] && t[|t| - 1] == b[last] && t[..|t| - 1] == "" + s + b[..last];
      TrimTakesBlanks("", s, b[..last]);
    }
  }

  /** One directive: a word between blanks. */
  datatype Directive = Directive(before: string, word: string, after: string)

  predicate IsWritten(d: Directive) {
    Blanks(d.before) && Blanks(d.after) && Solid(d.word) && ',' !in d.word
  }

  predicate AllWritten(ds: seq<Directive>) {
    forall i :: 0 <= i < |ds| ==> IsWritten(ds[i])
  }

  function Texts(ds: seq<Directive>): (r: seq<string>)
    ensures |r| == |ds| && forall i :: 0 <= i < |r| ==> r[i] == ds[i].before + ds[i].word + ds[i].after
  {
    seq(|ds|, i requires 0 <= i < |ds| => ds[i].before + ds[i].word + ds[i].after)
  }

  /** The value of the header: the directives, with commas between. */
  function HeaderText(ds: seq<Directive>): string
    requires ds != []
  {
    Joined(Texts(ds))
  }

  lemma HeaderParts(ds: seq<Directive>)
    requires ds != [] && AllWritten(ds)
    ensures Split(HeaderText(ds), ',') == Texts(ds)
    ensures forall i :: 0 <= i < |ds| ==> Trim(Texts(ds)[i]) == ds[i].word
  {
    forall i | 0 <= i < |ds|
      ensures ',' !in Texts(ds)[i] && Trim(Texts(ds)[i]) == ds[i].word
    {
      assert IsWritten(ds[i]);
      TrimTakesBlanks(ds[i].before, ds[i].word, ds[i].after);
    }
    SplitJoined(Texts(ds));
  }

  lemma {:induction false} TrimParts(t: string) returns (d: Directive)
    ensures d.before + d.word + d.after == t && Blanks(d.before) && Blanks(d.after) && Solid(d.word)
    decreases |t|
  {
    if t == "" || (!IsBlank(t[0]) && !IsBlank(t[|t| - 1])) {
      d := Directive("", t, "");
    } else if IsBlank(t[0]) {
      var e := TrimParts(t[1..]);
      d := e.(before := [t[0]] + e.before);
      assert t == [t[0]] + t[1..];
    } else {
      var e := TrimParts(t[..|t| - 1]);
      d := e.(after := e.after + [t[|t| - 1]]);
      assert t == t[..|t| - 1] + [t[|t| - 1]];
    }
  }

  lemma {:induction false} JoinedSplit(s: string)
    ensures Joined(Split(s, ',')) == s
    ensures forall i :: 0 <= i < |Split(s, ',')| ==> ',' !in Split(s, ',')[i]
    decreases |s|
  {
    if s != "" {
      JoinedSplit(s[1..]);
      var rest, pieces := Split(s[1..], ','), Split(s, ',');
      if s[0] == ',' {
        assert pieces[1..] == rest;
      } else {
        assert pieces[1..] == rest[1..];
      }
    }
  }

  lemma {:induction false} AllParts(texts: seq<string>) returns (ds: seq<Directive>)
    requires forall i :: 0 <= i < |texts| ==> ',' !in texts[i]
    ensures AllWritten(ds) && Texts(ds) == texts
    decreases |texts|
  {
    ds := [];
    if texts != [] {
      var d := TrimParts(texts[0]);
      assert forall c :: c in d.word ==> c in d.before + d.word + d.after;
      var rest := AllParts(texts[1..]);
      ds := [d] + rest;
      assert Texts(ds)[1..] == Texts(rest);
    }
  }

  /** Every value of the header can be read this way. */
  lemma EveryHeader(text: string) returns (ds: seq<Directive>)
    ensures ds != [] && AllWritten(ds) && HeaderText(ds) == text
  {
    JoinedSplit(text);
    ds := AllParts(Split(text, ','));
  }

  /** Reuse is forbidden exactly if one of the directives says so. */
  lemma ForbiddenByAny(ds: seq<Directive>)
    requires ds != [] && AllWritten(ds)
    ensures ForbidsReuse(HeaderText(ds)) <==>
      exists i :: 0 <= i < |ds| && (ds[i].word == "no-cache" || ds[i].word == "no-store")
  {
    HeaderParts(ds);
    if i :| 0 <= i < |ds| && (ds[i].word == "no-cache" || ds[i].word == "no-store") {
      assert Trim(Texts(ds)[i]) == ds[i].word;
    }
  }

  /** `k` is the first directive that gives a maximal age, or there is none and `k` is the number of all. */
  predicate FirstMaxAgeAt(ds: seq<Directive>, k: nat) {
    && k <= |ds| && (forall i :: 0 <= i < k ==> !("max-age=" <= ds[i].word))
    && (k < |ds| ==> "max-age=" <= ds[k].word)
  }

  lemma FirstInHeader(ds: seq<Directive>, k: nat)
    requires ds != [] && AllWritten(ds) && FirstMaxAgeAt(ds, k)
    ensures ParseMaxAge(HeaderText(ds)) == if k < |ds| then FirstMaxAge([Texts(ds)[k]]) else None
  {
    HeaderParts(ds);
    assert forall i :: 0 <= i < |ds| ==> (IsMaxAge(Texts(ds)[i]) <==> "max-age=" <= ds[i].word);
    FirstDecides(Texts(ds), k);
  }

  lemma ValueOf(text: string, pad: string, value: string)
    requires Trim(text) == MAX_AGE + (pad + value) && Blanks(pad) && Solid(value)
    ensures FirstMaxAge([text]) == ParseU64(StripPlus(value))
  {
    assert Trim(text)[|MAX_AGE|..] == pad + value + "";
    TrimTakesBlanks(pad, value, "");
  }

  /** What stands after the `=` of the first max-age decides alone. */
  lemma MaxAgeValue(ds: seq<Directive>, k: nat, pad: string, value: string)
    requires ds != [] && AllWritten(ds) && FirstMaxAgeAt(ds, k)
    requires k < |ds| ==> ds[k].word == "max-age=" + (pad + value) && Blanks(pad) && Solid(value)
    ensures ParseMaxAge(HeaderText(ds)) == if k < |ds| then ParseU64(StripPlus(value)) else None
  {
    FirstInHeader(ds, k);
    if k < |ds| {
      HeaderParts(ds);
      ValueOf(Texts(ds)[k], pad, value);
    }
  }

  predicate Digits(s: string) {
    s != "" && forall i :: 0 <= i < |s| ==> '0' <= s[i] <= '9'
  }

  lemma {:induction false} LeadingZeros(zeros: string, s: string)
    requires (forall i :: 0 <= i < |zeros| ==> zeros[i] == '0') && forall i :: 0 <= i < |s| ==> IsDigit(s[i])
    ensures forall i :: 0 <= i < |zeros + s| ==> IsDigit((zeros + s)[i])
    ensures DigitsValue(zeros + s) == DigitsValue(s)
    decreases |zeros| + |s|
  {
    var t := zeros + s;
    if s != "" {
      assert t[..|t| - 1] == zeros + s[..|s| - 1];
      LeadingZeros(zeros, s[..|s| - 1]);
    } else if zeros != "" {
      assert t == zeros && t[..|t| - 1] == zeros[..|zeros| - 1] + "";
      LeadingZeros(zeros[..|zeros| - 1], "");
    }
  }

  predicate IsSign(s: string) {
    s == "" || s == "+" || s == "++"
  }

  lemma SolidNumber(sign: string, digits: string)
    requires IsSign(sign) && Digits(digits)
    ensures Solid(sign + digits)
  {
    var value := sign + digits;
    assert value[|value| - 1] == digits[|digits| - 1] && '0' <= digits[|digits| - 1] <= '9';
    assert value[0] == if sign == "" then digits[0] else '+';
    assert '0' <= digits[0] <= '9';
  }

  lemma StripOne(rest: string)
    ensures StripPlus("+" + rest) == rest
  {
  }

  lemma StripSign(sign: string, digits: string)
    requires IsSign(sign) && Digits(digits)
    ensures StripPlus(StripPlus(sign + digits)) == digits
  {
    assert '0' <= digits[0] <= '9';
    StripOne(digits);
    StripOne("+" + digits);
    assert sign == "" ==> sign + digits == digits;
    assert sign == "++" ==> sign + digits == "+" + ("+" + digits);
  }

  lemma ReadDigits(sign: string, digits: string)
    requires IsSign(sign) && Digits(digits)
    ensures ParseU64(StripPlus(sign + digits)) ==
      if DigitsValue(digits) < TWO_64 then Some(DigitsValue(digits)) else None
  {
    StripSign(sign, digits);
  }

  lemma StripsASign(value: string) returns (sign: string)
    ensures IsSign(sign) && value == sign + StripPlus(StripPlus(value))
  {
    var once := StripPlus(value);
    var twice := StripPlus(once);
    sign := (if value == once then "" else "+") + (if once == twice then "" else "+");
    assert once == (if once == twice then "" else "+") + twice;
    assert value == (if value == once then "" else "+") + once;
  }

  lemma UnreadableDigits(value: string)
    requires forall sign: string, digits: string :: IsSign(sign) && value == sign + digits ==> !Digits(digits)
    ensures ParseU64(StripPlus(value)) == None
  {
    var sign := StripsASign(value);
    assert !Digits(StripPlus(StripPlus(value)));
  }

  /** Among any directives around it, the first max-age decides. Written in decimal, with blanks around it, up
      to two plus signs and leading zeros or without, it is read back for every u64 and dropped above. */
  lemma MaxAgeRoundTrip(ds: seq<Directive>, k: nat, pad: string, sign: string, zeros: string, n: nat)
    requires ds != [] && AllWritten(ds) && FirstMaxAgeAt(ds, k)
    requires Blanks(pad) && (sign == "" || sign == "+" || sign == "++")
    requires forall i :: 0 <= i < |zeros| ==> zeros[i] == '0'
    requires k < |ds| ==> ds[k].word == "max-age=" + (pad + (sign + (zeros + Decimal(n))))
    ensures ParseMaxAge(HeaderText(ds)) == if k < |ds| && n < 0x1_0000_0000_0000_0000 then Some(n) else None
  {
    var digits := zeros + Decimal(n);
    LeadingZeros(zeros, Decimal(n));
    DecimalValue(n);
    assert Digits(digits) by {
      assert forall i :: 0 <= i < |digits| ==> IsDigit(digits[i]);
    }
    ReadDigits(sign, digits);
    SolidNumber(sign, digits);
    MaxAgeValue(ds, k, pad, sign + digits);
  }

  /** Anything else after the `=` gives no maximal age at all, whatever later directives say. */
  lemma UnreadableMaxAge(ds: seq<Directive>, k: nat, pad: string, value: string)
    requires ds != [] && AllWritten(ds) && FirstMaxAgeAt(ds, k) && k < |ds|
    requires ds[k].word == "max-age=" + (pad + value) && Blanks(pad) && Solid(value)
    requires forall sign: string, digits: string ::
      (sign == "" || sign == "+" || sign == "++") && value == sign + digits ==> !Digits(digits)
    ensures ParseMaxAge(HeaderText(ds)) == None
  {
    UnreadableDigits(value);
    MaxAgeValue(ds, k, pad, value);
  }

  /** Decimal notation: the digits of `n`, if any, then the digit `d`. */
  lemma DecimalDigits(n: nat, d: nat)
    requires d < 10
    ensures Decimal(10 * n + d) == (if n == 0 then "" else Decimal(n)) + ["0123456789"[d]]
  {
    assert (10 * n + d) / 10 == n && (10 * n + d) % 10 == d;
    assert "0123456789"[d] == '0' + d as char;
  }

  // ---- the two decisions ------------------------------------------------------------------------

  /** `is_fresh` at clock reading `now`. */
  predicate IsFresh(now: int, cachedAt: int, headers: Headers, maxCacheAge: nat)
    requires maxCacheAge < TWO_64
  {
    if cachedAt <= 0 || now < cachedAt then false
    else
      var age := now - cachedAt;
      if headers.cacheControl.Some? && ForbidsReuse(headers.cacheControl.value) then false
      else if headers.cacheControl.Some? && ParseMaxAge(headers.cacheControl.value).Some? then
        age < AsI64(ParseMaxAge(headers.cacheControl.value).value)
      else if headers.expires.Some? then now < headers.expires.value
      else maxCacheAge > 0 && age < AsI64(maxCacheAge)
  }

  /** The order of the sources: `no-cache` and `no-store` forbid, then the first max-age decides, then the Expires
      date, then the configured lifetime. No directives stand for a missing header. */
  lemma FreshByPriority(now: int, cachedAt: int, ds: seq<Directive>, k: nat, n: nat, expires: Option<nat>, ttl: nat)
    requires AllWritten(ds) && FirstMaxAgeAt(ds, k) && (k < |ds| ==> ds[k].word == "max-age=" + Decimal(n))
    requires n < 0x8000_0000_0000_0000 && ttl < 0x8000_0000_0000_0000
    ensures IsFresh(now, cachedAt, Headers(if ds == [] then None else Some(HeaderText(ds)), expires), ttl) <==>
      && 0 < cachedAt <= now
      && (forall i :: 0 <= i < |ds| ==> ds[i].word != "no-cache" && ds[i].word != "no-store")
      && if k < |ds| then now - cachedAt < n
         else if expires.Some? then now < expires.value
         else now - cachedAt < ttl
  {
    if ds != [] {
      ForbiddenByAny(ds);
      assert Decimal(n) == "" + ("" + ("" + Decimal(n)));
      MaxAgeRoundTrip(ds, k, "", "", "", n);
    }
  }

  /** `time_until_expiry` at clock reading `now`. */
  function TimeUntilExpiry(now: int, cachedAt: int, headers: Headers, maxCacheAge: nat): Option<nat>
    requires maxCacheAge < TWO_64
  {
    if cachedAt <= 0 || now < cachedAt then None
    else if headers.cacheControl.Some? && ForbidsReuse(headers.cacheControl.value) then None
    else if headers.cacheControl.Some? && ParseMaxAge(headers.cacheControl.value).Some? then
      Some(TimeLeft(now, cachedAt, ParseMaxAge(headers.cacheControl.value).value))
    else if headers.expires.Some? then Some(Max(headers.expires.value - now, 0))
    else if maxCacheAge > 0 then Some(TimeLeft(now, cachedAt, maxCacheAge))
    else None
  }

  function TimeLeft(now: int, cachedAt: int, lifetime: nat): nat
    requires lifetime < TWO_64
  {
    Max(Wrap(SaturatingAdd(cachedAt, AsI64(lifetime)) - now), 0)
  }

  lemma PlainTimeLeft(now: int, cachedAt: int, lifetime: nat)
    requires 0 < cachedAt <= now < TWO_63 && cachedAt + lifetime < TWO_63
    ensures TimeLeft(now, cachedAt, lifetime) == Max(cachedAt + lifetime - now, 0)
  {
  }

  /** The time left by the same order: none at all if reuse is forbidden or no source is there, 0 once expired. */
  lemma LeftByPriority(now: int, cachedAt: int, ds: seq<Directive>, k: nat, n: nat, expires: Option<nat>, ttl: nat)
    requires AllWritten(ds) && FirstMaxAgeAt(ds, k) && (k < |ds| ==> ds[k].word == "max-age=" + Decimal(n))
    requires now < 0x8000_0000_0000_0000 && cachedAt + Max(n, ttl) < 0x8000_0000_0000_0000
    requires n < 0x8000_0000_0000_0000 && ttl < 0x8000_0000_0000_0000
    ensures var headers := Headers(if ds == [] then None else Some(HeaderText(ds)), expires);
      var left := TimeUntilExpiry(now, cachedAt, headers, ttl);
      if !(0 < cachedAt <= now) then left == None
      else if exists i :: 0 <= i < |ds| && (ds[i].word == "no-cache" || ds[i].word == "no-store") then left == None
      else if k < |ds| then left == Some(Max(cachedAt + n - now, 0))
      else if expires.Some? then left == Some(Max(expires.value - now, 0))
      else if ttl > 0 then left == Some(Max(cachedAt + ttl - now, 0))
      else left == None
  {
    if 0 < cachedAt <= now {
      PlainTimeLeft(now, cachedAt, n);
      PlainTimeLeft(now, cachedAt, ttl);
    }
    if ds != [] {
      ForbiddenByAny(ds);
      assert Decimal(n) == "" + ("" + ("" + Decimal(n)));
      MaxAgeRoundTrip(ds, k, "", "", "", n);
    }
  }

  /** The lifetime in seconds that decides, when a relative one does. */
  function RelativeLifetime(headers: Headers, maxCacheAge: nat): Option<nat>
    requires maxCacheAge < TWO_64
  {
    if headers.cacheControl.Some? && ForbidsReuse(headers.cacheControl.value) then None
    else if headers.cacheControl.Some? && ParseMaxAge(headers.cacheControl.value).Some? then
      ParseMaxAge(headers.cacheControl.value)
    else if headers.expires.Some? || maxCacheAge == 0 then None
    else Some(maxCacheAge)
  }

  predicate InClockRange(now: int, cachedAt: int, headers: Headers, maxCacheAge: nat) {
    && 0 <= now < TWO_63 && -TWO_63 <= cachedAt < TWO_63 && maxCacheAge < TWO_64
    && (headers.expires.Some? ==> headers.expires.value < TWO_63)
  }

  /** A lifetime that is negative as an i64, and so far in the past that the subtraction wraps. */
  predicate Wraps(now: int, cachedAt: int, headers: Headers, maxCacheAge: nat)
    requires maxCacheAge < TWO_64
  {
    && 0 < cachedAt <= now
    && var lifetime := RelativeLifetime(headers, maxCacheAge);
       lifetime.Some? && lifetime.value >= TWO_63 && now - cachedAt > lifetime.value - TWO_63
  }

  /** The expiry instant is not cut off at the largest i64. */
  predicate Unsaturated(cachedAt: int, headers: Headers, maxCacheAge: nat)
    requires maxCacheAge < TWO_64
  {
    var lifetime := RelativeLifetime(headers, maxCacheAge);
    lifetime.Some? ==> cachedAt + AsI64(lifetime.value) < TWO_63
  }

  /** The clock stands at the largest i64 and the expiry instant was cut off there. */
  predicate AtCutOff(now: int, cachedAt: int, headers: Headers, maxCacheAge: nat)
    requires maxCacheAge < TWO_64
  {
    0 < cachedAt <= now == TWO_63 - 1 && !Unsaturated(cachedAt, headers, maxCacheAge)
  }

  /** Fresh means time left, except exactly where the subtraction wraps or at the end of the clock. */
  lemma FreshIffTimeLeft(now: int, cachedAt: int, headers: Headers, maxCacheAge: nat)
    requires InClockRange(now, cachedAt, headers, maxCacheAge)
    ensures var left := TimeUntilExpiry(now, cachedAt, headers, maxCacheAge);
      (IsFresh(now, cachedAt, headers, maxCacheAge) <==> left.Some? && left.value > 0)
      <==> !Wraps(now, cachedAt, headers, maxCacheAge) && !AtCutOff(now, cachedAt, headers, maxCacheAge)
  {
  }

  lemma PlainWord(n: nat, word: string)
    requires word == "max-age=" + Decimal(n)
    ensures IsWritten(Directive("", word, "")) && "max-age=" <= word && word != "no-cache" && word != "no-store"
  {
    var last := Decimal(n)[|Decimal(n)| - 1];
    assert IsDigit(last) && word[|word| - 1] == last && word[0] == 'm';
  }

  lemma OneDirective(word: string)
    ensures HeaderText([Directive("", word, "")]) == word
  {
    assert "" + word + "" == word;
  }

  lemma OnlyMaxAge(n: nat, word: string)
    requires n < TWO_64 && word == "max-age=" + Decimal(n)
    ensures ParseMaxAge(word) == Some(n) && !ForbidsReuse(word)
  {
    var ds := [Directive("", word, "")];
    PlainWord(n, word);
    OneDirective(word);
    assert Decimal(n) == "" + ("" + ("" + Decimal(n)));
    MaxAgeRoundTrip(ds, 0, "", "", "", n);
    ForbiddenByAny(ds);
  }

  /** A lifetime of 2^63 seconds: one second later the entry is stale, and yet time is left. */
  lemma StaleWithTimeLeft() returns (headers: Headers)
    ensures !IsFresh(2, 1, headers, 0) && TimeUntilExpiry(2, 1, headers, 0) == Some(TWO_63 - 1)
  {
    var word := "max-age=" + Decimal(TWO_63);
    OnlyMaxAge(TWO_63, word);
    headers := Headers(Some(word), None);
  }

  /** The time left is exact: the entry is fresh for precisely that many more seconds. */
  ghost predicate ExactlyFor(now: int, cachedAt: int, headers: Headers, maxCacheAge: nat, seconds: nat)
    requires maxCacheAge < TWO_64
  {
    forall t :: now <= t < TWO_63 ==> (IsFresh(t, cachedAt, headers, maxCacheAge) <==> t - now < seconds)
  }

  lemma FreshForTimeLeft(now: int, cachedAt: int, headers: Headers, maxCacheAge: nat)
    requires InClockRange(now, cachedAt, headers, maxCacheAge)
    requires IsFresh(now, cachedAt, headers, maxCacheAge)
    ensures TimeUntilExpiry(now, cachedAt, headers, maxCacheAge).Some?
    ensures ExactlyFor(now, cachedAt, headers, maxCacheAge, TimeUntilExpiry(now, cachedAt, headers, maxCacheAge).value)
      <==> Unsaturated(cachedAt, headers, maxCacheAge)
  {
    var n := TimeUntilExpiry(now, cachedAt, headers, maxCacheAge).value;
    if Unsaturated(cachedAt, headers, maxCacheAge) {
      forall t | now <= t < TWO_63
        ensures IsFresh(t, cachedAt, headers, maxCacheAge) <==> t - now < n
      {
      }
    } else {
      assert now + n == TWO_63 - 1;
      assert IsFresh(now + n, cachedAt, headers, maxCacheAge);
    }
  }
}

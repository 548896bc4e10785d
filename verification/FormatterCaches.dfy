/** The bounded caches of date formatters (src/lib/date-format.ts:44-130, 169-193, 233-246). */
module FormatterCaches {
  import opened Options

  // The specification: distinct keys by most recent access

  function Without(keys: seq<string>, key: string): (r: seq<string>)
    ensures forall k :: k in r <==> k in keys && k != key
    ensures |r| <= |keys|
  {
    if keys == [] then []
    else
      var last := |keys| - 1;
      Without(keys[..last], key) + if keys[last] == key then [] else [keys[last]]
  }

  /** The distinct keys of a history, least recently used first. */
  function Recent(history: seq<string>): (r: seq<string>)
    ensures forall k :: k in r <==> k in history
  {
    if history == [] then []
    else
      var last := |history| - 1;
      Without(Recent(history[..last]), history[last]) + [history[last]]
  }

  /** The last `limit` of them, or all if there are fewer. */
  function Newest(keys: seq<string>, limit: nat): seq<string> {
    if |keys| <= limit then keys else keys[|keys| - limit..]
  }

  ghost predicate Differ(keys: seq<string>, i: int, j: int) {
    0 <= i < j < |keys| ==> keys[i] != keys[j]
  }

  ghost predicate Distinct(keys: seq<string>) {
    forall i: int, j: int {:trigger Differ(keys, i, j)} :: Differ(keys, i, j)
  }

  /** The position of the latest access to `key`. */
  function LastUse(history: seq<string>, key: string): (i: nat)
    requires key in history
    ensures i < |history| && history[i] == key && key !in history[i + 1..]
  {
    var last := |history| - 1;
    if history[last] == key then last else LastUse(history[..last], key)
  }

  lemma {:induction false} WithoutAbsent(keys: seq<string>, key: string)
    requires key !in keys
    ensures Without(keys, key) == keys
  {
    if keys == [] {
    } else {
      WithoutAbsent(keys[..|keys| - 1], key);
    }
  }

  lemma {:induction false} WithoutAppends(a: seq<string>, b: seq<string>, key: string)
    ensures Without(a + b, key) == Without(a, key) + Without(b, key)
  {
    if b == [] {
      assert a + b == a;
    } else {
      var last := |b| - 1;
      assert (a + b)[..|a + b| - 1] == a + b[..last];
      WithoutAppends(a, b[..last], key);
    }
  }

  lemma DistinctFront(keys: seq<string>)
    requires Distinct(keys) && keys != []
    ensures Distinct(keys[..|keys| - 1]) && keys[|keys| - 1] !in keys[..|keys| - 1]
  {
    var last := |keys| - 1;
    forall i: int, j: int ensures Differ(keys[..last], i, j) { assert Differ(keys, i, j); }
    forall i | 0 <= i < last ensures keys[..last][i] != keys[last] { assert Differ(keys, i, last); }
  }

  lemma DistinctBack(keys: seq<string>)
    requires Distinct(keys) && keys != []
    ensures Distinct(keys[1..]) && keys[0] !in keys[1..]
  {
    forall i: int, j: int ensures Differ(keys[1..], i, j) { assert Differ(keys, i + 1, j + 1); }
    forall i | 0 <= i < |keys| - 1 ensures keys[1..][i] != keys[0] { assert Differ(keys, 0, i + 1); }
  }

  lemma DistinctWith(keys: seq<string>, key: string)
    requires Distinct(keys) && key !in keys
    ensures Distinct(keys + [key])
  {
    forall i: int, j: int ensures Differ(keys + [key], i, j) {
      assert Differ(keys, i, j);
      if 0 <= i < |keys| { assert keys[i] in keys; }
    }
  }

  lemma {:induction false} DistinctNewest(keys: seq<string>, limit: nat)
    requires Distinct(keys)
    ensures Distinct(Newest(keys, limit))
    decreases |keys|
  {
    if |keys| <= limit {
    } else {
      DistinctBack(keys);
      DistinctNewest(keys[1..], limit);
      assert Newest(keys[1..], limit) == Newest(keys, limit);
    }
  }

  /** Removing a key keeps the others distinct and one fewer. */
  lemma {:induction false} WithoutDistinct(keys: seq<string>, key: string)
    requires Distinct(keys)
    ensures Distinct(Without(keys, key))
    ensures key in keys ==> |Without(keys, key)| == |keys| - 1
  {
    if keys == [] {
    } else {
      var last := |keys| - 1;
      DistinctFront(keys);
      assert keys == keys[..last] + [keys[last]];
      WithoutDistinct(keys[..last], key);
      if keys[last] == key {
        WithoutAbsent(keys[..last], key);
        assert Without(keys, key) == keys[..last];
      } else {
        DistinctWith(Without(keys[..last], key), keys[last]);
      }
    }
  }

  lemma {:induction false} RecentDistinct(history: seq<string>)
    ensures Distinct(Recent(history))
  {
    if history == [] {
    } else {
      var last := |history| - 1;
      RecentDistinct(history[..last]);
      WithoutDistinct(Recent(history[..last]), history[last]);
      DistinctWith(Without(Recent(history[..last]), history[last]), history[last]);
    }
  }

  lemma {:induction false} WithoutKeepsOrder(keys: seq<string>, key: string, i: nat, j: nat)
    requires i < j < |Without(keys, key)|
    ensures exists p, q :: 0 <= p < q < |keys| && keys[p] == Without(keys, key)[i] && keys[q] == Without(keys, key)[j]
  {
    var last := |keys| - 1;
    var rest := Without(keys[..last], key);
    if j < |rest| {
      WithoutKeepsOrder(keys[..last], key, i, j);
      var p, q :| 0 <= p < q < last && keys[..last][p] == rest[i] && keys[..last][q] == rest[j];
      assert keys[p] == Without(keys, key)[i] && keys[q] == Without(keys, key)[j];
    } else {
      assert rest[i] in keys[..last];
      var p :| 0 <= p < last && keys[p] == rest[i];
      assert keys[p] == Without(keys, key)[i] && keys[last] == Without(keys, key)[j];
    }
  }

  /** The ranking is by latest access. */
  lemma {:induction false} RecentIsByLastUse(history: seq<string>, i: nat, j: nat)
    requires i < j < |Recent(history)|
    ensures Recent(history)[i] in history && Recent(history)[j] in history
    ensures LastUse(history, Recent(history)[i]) < LastUse(history, Recent(history)[j])
  {
    var last := |history| - 1;
    var h, key := history[..last], history[last];
    var rest := Without(Recent(h), key);
    assert rest[i] in rest;
    assert history == h + [key];
    if j == |rest| {
    } else {
      assert rest[j] in rest;
      WithoutKeepsOrder(Recent(h), key, i, j);
      var p, q :| 0 <= p < q < |Recent(h)| && Recent(h)[p] == rest[i] && Recent(h)[q] == rest[j];
      RecentIsByLastUse(h, p, q);
    }
  }

  lemma NewestOfBack(front: seq<string>, back: seq<string>, limit: nat)
    requires front == [] || |back| >= limit
    ensures Newest(front + back, limit) == Newest(back, limit)
  {
    if front == [] { assert front + back == back; }
  }

  lemma WithoutLength(keys: seq<string>, key: string)
    requires Distinct(keys)
    ensures |Without(keys, key)| + 1 >= |keys|
  {
    WithoutDistinct(keys, key);
    if key !in keys { WithoutAbsent(keys, key); }
  }

  /** What falls out of the newest keys never decides which keys are newest later. */
  lemma NewestMoves(keys: seq<string>, key: string, limit: nat)
    requires Distinct(keys)
    ensures Newest(Without(keys, key) + [key], limit) == Newest(Without(Newest(keys, limit), key) + [key], limit)
  {
    var kept := Newest(keys, limit);
    var gone := keys[..|keys| - |kept|];
    assert keys == gone + kept;
    DistinctNewest(keys, limit);
    WithoutAppends(gone, kept, key);
    WithoutLength(kept, key);
    var moved := Without(kept, key) + [key];
    assert Without(keys, key) + [key] == Without(gone, key) + moved;
    NewestOfBack(Without(gone, key), moved, limit);
  }

  /** An access in terms of the keys kept: a hit moves its key, a miss adds it and may evict the oldest. */
  lemma AccessMoves(history: seq<string>, key: string, limit: nat)
    ensures var kept := Newest(Recent(history), limit);
      && Distinct(kept)
      && Recent(history + [key]) == Without(Recent(history), key) + [key]
      && (key in kept ==> Newest(Recent(history + [key]), limit) == Without(kept, key) + [key])
      && (key !in kept ==> Newest(Recent(history + [key]), limit) == Newest(kept + [key], limit))
  {
    var kept := Newest(Recent(history), limit);
    assert (history + [key])[..|history|] == history;
    RecentDistinct(history);
    DistinctNewest(Recent(history), limit);
    NewestMoves(Recent(history), key, limit);
    WithoutDistinct(kept, key);
    if key !in kept { WithoutAbsent(kept, key); }
  }

  /** The eviction loop: oldest first, until the limit is met. */
  method Evict<T>(keys: seq<string>, formatters: map<string, T>, limit: nat)
    returns (kept: seq<string>, left: map<string, T>)
    requires Distinct(keys) && forall k :: k in formatters <==> k in keys
    ensures kept == Newest(keys, limit)
    ensures forall k :: k in left <==> k in kept
    ensures forall k :: k in left ==> k in formatters && left[k] == formatters[k]
  {
    kept, left := keys, formatters;
    while |kept| > limit
      invariant |kept| <= |keys| && kept == keys[|keys| - |kept|..]
      invariant kept == keys || |kept| >= limit
      invariant Distinct(kept)
      invariant forall k :: k in left <==> k in kept
      invariant forall k :: k in left ==> k in formatters && left[k] == formatters[k]
    {
      DistinctBack(kept);
      var oldest := kept[0];
      assert kept == [oldest] + kept[1..];
      kept, left := kept[1..], left - {oldest};
    }
  }

  /** `Map<string, T>`: entries in insertion order. */
  class FormatterCache<T> {
    const limit: nat
    var keys: seq<string>
    var formatters: map<string, T>
    ghost var history: seq<string>   // the keys of the accesses that returned

    /** The cache is the newest keys of its history, however it got there. */
    ghost predicate Valid()
      reads this
    {
      && keys == Newest(Recent(history), limit)
      && (forall k :: k in formatters <==> k in keys)
    }

    constructor (limit: nat)
      ensures Valid() && this.limit == limit && history == [] && formatters == map[]
    {
      this.limit := limit;
      keys, formatters, history := [], map[], [];
    }

    /** `cacheFormatter`; `create` is what the formatter's constructor returns, None when it throws. */
    method CacheFormatter(key: string, create: Option<T>) returns (formatter: Option<T>)
      requires Valid()
      modifies this
      ensures Valid()
      ensures history == if formatter.None? then old(history) else old(history) + [key]
      ensures |keys| <= limit
      // A hit returns what the key was cached with, a miss what has just been built.
      ensures formatter == if key in old(formatters) then Some(old(formatters)[key]) else create
      ensures forall k :: k in formatters ==>
        (k in old(formatters) && formatters[k] == old(formatters)[k]) || (k == key && formatter == Some(formatters[k]))
      ensures formatter.None? ==> keys == old(keys) && formatters == old(formatters)
    {
      AccessMoves(history, key, limit);
      if key in formatters {
        formatter := Some(formatters[key]);
        keys := Without(keys, key) + [key];
        history := history + [key];
        return;
      }
      formatter := create;
      if create.None? { return; }
      DistinctWith(keys, key);
      keys, formatters := Evict(keys + [key], formatters[key := create.value], limit);
      history := history + [key];
    }
  }

  // The keys

  datatype Kind = Long | Short | Time

  datatype IntlOptions =
    | TimeStyle(hour12: bool, zone: Option<string>)
    | DateAndTimeStyle(kind: Kind, hour12: bool, zone: Option<string>)
    | DateStyle(kind: Kind, zone: Option<string>)
    | UtcMillis

  /** `new Intl.DateTimeFormat(locale, options)` */
  datatype DateTimeFormat = DateTimeFormat(locale: string, options: IntlOptions)

  /** What `formatDateValue` is asked for once its defaults are filled in. */
  datatype Request = Request(locale: string, kind: Kind, hour12: bool, timeZone: Option<string>, showTime: bool)

  /** `intlOptions`; an empty zone is no zone. */
  function OptionsFor(r: Request): IntlOptions {
    var zone := if r.timeZone == Some("") then None else r.timeZone;
    if r.kind.Time? then TimeStyle(r.hour12, zone)
    else if r.showTime then DateAndTimeStyle(r.kind, r.hour12, zone)
    else DateStyle(r.kind, zone)
  }

  function FormatterFor(r: Request): DateTimeFormat {
    DateTimeFormat(r.locale, OptionsFor(r))
  }

  function KindText(kind: Kind): string {
    match kind case Long => "long" case Short => "short" case Time => "time"
  }

  function BoolText(b: bool): string {
    if b then "true" else "false"
  }

  function ZoneText(zone: Option<string>): string {
    if zone.Some? then zone.value else ""
  }

  function KeyTail(r: Request): string {
    KindText(r.kind) + ("|" + (BoolText(r.hour12) + ("|" + (ZoneText(r.timeZone) + ("|" + BoolText(r.showTime))))))
  }

  /** `${locale}|${kind}|${hour12}|${timeZone ?? ""}|${showTime}` */
  function KeyOf(r: Request): string {
    r.locale + ("|" + KeyTail(r))
  }

  /** `${locale}|utc-millis` */
  function UtcMillisKey(locale: string): string {
    locale + "|utc-millis"
  }

  function Bars(s: string): nat {
    if s == "" then 0 else Bars(s[..|s| - 1]) + if s[|s| - 1] == '|' then 1 else 0
  }

  lemma {:induction false} BarsAppend(a: string, b: string)
    ensures Bars(a + b) == Bars(a) + Bars(b)
  {
    if b == "" {
      assert a + b == a;
    } else {
      assert (a + b)[..|a + b| - 1] == a + b[..|b| - 1];
      BarsAppend(a, b[..|b| - 1]);
    }
  }

  lemma BarsJoin(a: string, b: string)
    ensures Bars(a + ("|" + b)) == Bars(a) + 1 + Bars(b)
  {
    BarsAppend("|", b);
    BarsAppend(a, "|" + b);
  }

  lemma {:induction false} NoBars(s: string)
    ensures Bars(s) == 0 <==> '|' !in s
  {
    if s == "" {
    } else {
      NoBars(s[..|s| - 1]);
      assert s == s[..|s| - 1] + [s[|s| - 1]];
    }
  }

  /** The text before the first bar is determined. */
  lemma FirstField(a: string, x: string, b: string, y: string)
    requires '|' !in a && '|' !in b && a + ("|" + x) == b + ("|" + y)
    ensures a == b && x == y
  {
    var l, r := a + ("|" + x), b + ("|" + y);
    assert l[|a|] == '|' && r[|b|] == '|';
    forall i | 0 <= i < |a| ensures l[i] != '|' { assert l[i] == a[i] && a[i] in a; }
    forall i | 0 <= i < |b| ensures r[i] != '|' { assert r[i] == b[i] && b[i] in b; }
    assert a == l[..|a|] && b == r[..|b|];
    assert x == l[|a| + 1..] && y == r[|b| + 1..];
  }

  predicate Clean(r: Request) {
    '|' !in r.locale && '|' !in ZoneText(r.timeZone)
  }

  lemma TailBars(r: Request)
    ensures Bars(KeyTail(r)) == 3 + Bars(ZoneText(r.timeZone))
  {
    var h, z, s := BoolText(r.hour12), ZoneText(r.timeZone), BoolText(r.showTime);
    NoBars(KindText(r.kind));
    NoBars(h);
    NoBars(s);
    BarsJoin(z, s);
    BarsJoin(h, z + ("|" + s));
    BarsJoin(KindText(r.kind), h + ("|" + (z + ("|" + s))));
  }

  lemma KeyBars(r: Request)
    ensures Bars(KeyOf(r)) == 4 + Bars(r.locale) + Bars(ZoneText(r.timeZone))
  {
    TailBars(r);
    BarsJoin(r.locale, KeyTail(r));
  }

  /** A key without a bar in its locale and zone belongs to no other formatter, whatever else is asked for. */
  lemma KeyInjective(r: Request, q: Request)
    requires Clean(r) && KeyOf(r) == KeyOf(q)
    ensures Clean(q) && FormatterFor(q) == FormatterFor(r)
    ensures r.locale == q.locale && r.kind == q.kind && r.hour12 == q.hour12 && r.showTime == q.showTime
    ensures ZoneText(r.timeZone) == ZoneText(q.timeZone)
  {
    KeyBars(r);
    KeyBars(q);
    NoBars(r.locale);
    NoBars(q.locale);
    NoBars(ZoneText(r.timeZone));
    NoBars(ZoneText(q.timeZone));
    FirstField(r.locale, KeyTail(r), q.locale, KeyTail(q));
    FieldsAfter(r, q);
  }

  lemma FieldsAfter(r: Request, q: Request)
    requires Clean(r) && Clean(q) && KeyTail(r) == KeyTail(q)
    ensures r.kind == q.kind && r.hour12 == q.hour12 && r.showTime == q.showTime
    ensures ZoneText(r.timeZone) == ZoneText(q.timeZone)
  {
    var x := ZoneText(r.timeZone) + ("|" + BoolText(r.showTime));
    var y := ZoneText(q.timeZone) + ("|" + BoolText(q.showTime));
    FirstField(KindText(r.kind), BoolText(r.hour12) + ("|" + x), KindText(q.kind), BoolText(q.hour12) + ("|" + y));
    FirstField(BoolText(r.hour12), x, BoolText(q.hour12), y);
    FirstField(ZoneText(r.timeZone), BoolText(r.showTime), ZoneText(q.timeZone), BoolText(q.showTime));
    assert KindText(r.kind)[0] == KindText(q.kind)[0];
    assert BoolText(r.hour12)[0] == BoolText(q.hour12)[0] && BoolText(r.showTime)[0] == BoolText(q.showTime)[0];
  }

  /** With a bar in the locale of one and the zone of the other, two requests can share a key. */
  lemma KeysCollide()
    ensures
      var r := Request("en", Long, true, Some("A|short|true|Z"), true);
      var q := Request("en|long|true|A", Short, true, Some("Z"), true);
      KeyOf(r) == KeyOf(q) && FormatterFor(r) != FormatterFor(q)
  {
  }

  /** The two kinds of key never meet, not even with bars in a locale. */
  lemma KeysApart(r: Request, locale: string)
    ensures KeyOf(r) != UtcMillisKey(locale)
  {
    var key := KeyOf(r);
    var last := BoolText(r.showTime);
    assert key[|key| - 1] == last[|last| - 1] == 'e';
    assert UtcMillisKey(locale)[|UtcMillisKey(locale)| - 1] == 's';
  }

  // The two caches behind the formatting functions

  const MAX_DATE_TIME_FORMATTERS: nat := 64
  const MAX_RELATIVE_FORMATTERS: nat := 16

  datatype DateKind = Absolute(kind: Kind) | Relative
  datatype DateFormatOptions = DateFormatOptions(
    locale: Option<string>, hour12: Option<bool>, utc: bool, timeZone: Option<string>, showTime: Option<bool>)

  function LocaleOf(options: DateFormatOptions): string {
    if options.locale.None? || options.locale.value == "" then "en" else options.locale.value
  }

  function RequestFor(kind: Kind, options: DateFormatOptions): Request {
    Request(LocaleOf(options), kind,
            if options.hour12.Some? then options.hour12.value else true,
            if options.utc then Some("UTC") else options.timeZone,
            if options.showTime.Some? then options.showTime.value else true)
  }

  /** How a value is rendered: with which formatter, if `Intl` accepts its locale and zone. */
  datatype Rendering = Fallback | With(format: DateTimeFormat) | RelativeTo(locale: string) | Throws

  function ZoneOf(options: IntlOptions): string {
    match options
    case TimeStyle(_, zone) => ZoneText(zone)
    case DateAndTimeStyle(_, _, zone) => ZoneText(zone)
    case DateStyle(_, zone) => ZoneText(zone)
    case UtcMillis => "UTC"
  }

  /** `Intl` raises a RangeError for a locale or a zone with a bar in it: neither is a name it knows. */
  ghost predicate RejectsBars(supported: DateTimeFormat -> bool) {
    forall f :: supported(f) ==> '|' !in f.locale && '|' !in ZoneOf(f.options)
  }

  /** A cached formatter exists and was built for a request with that key. */
  ghost predicate Honest(key: string, f: DateTimeFormat, supported: DateTimeFormat -> bool) {
    && supported(f)
    && if f.options.UtcMillis? then key == UtcMillisKey(f.locale)
       else exists r :: key == KeyOf(r) && f == FormatterFor(r)
  }

  /** A hit is never somebody else's formatter, even for a request that `Intl` would refuse. */
  lemma HonestHit(r: Request, f: DateTimeFormat, supported: DateTimeFormat -> bool)
    requires RejectsBars(supported) && Honest(KeyOf(r), f, supported)
    ensures f == FormatterFor(r)
  {
    if f.options.UtcMillis? {
      KeysApart(r, f.locale);
    } else {
      var q :| KeyOf(r) == KeyOf(q) && f == FormatterFor(q);
      KeyInjective(q, r);
    }
  }

  lemma HonestUtcHit(locale: string, f: DateTimeFormat, supported: DateTimeFormat -> bool)
    requires Honest(UtcMillisKey(locale), f, supported)
    ensures f == DateTimeFormat(locale, UtcMillis)
  {
    if f.options.UtcMillis? {
      assert locale == UtcMillisKey(locale)[..|locale|] && f.locale == UtcMillisKey(f.locale)[..|f.locale|];
    } else {
      var q :| UtcMillisKey(locale) == KeyOf(q) && f == FormatterFor(q);
      KeysApart(q, locale);
    }
  }

  class DateFormatters {
    const dateTimeFormatters: FormatterCache<DateTimeFormat>
    const relativeFormatters: FormatterCache<string>
    const supported: DateTimeFormat -> bool
    const supportedLocale: string -> bool

    ghost predicate Valid()
      reads this, dateTimeFormatters, relativeFormatters
    {
      && dateTimeFormatters.Valid() && dateTimeFormatters.limit == MAX_DATE_TIME_FORMATTERS
      && relativeFormatters.Valid() && relativeFormatters.limit == MAX_RELATIVE_FORMATTERS
      && RejectsBars(supported)
      && (forall k :: k in dateTimeFormatters.formatters ==> Honest(k, dateTimeFormatters.formatters[k], supported))
      && (forall k :: k in relativeFormatters.formatters ==>
            relativeFormatters.formatters[k] == k && supportedLocale(k))
    }

    constructor (supported: DateTimeFormat -> bool, supportedLocale: string -> bool)
      requires RejectsBars(supported)
      ensures Valid() && fresh(dateTimeFormatters) && fresh(relativeFormatters)
      ensures this.supported == supported && this.supportedLocale == supportedLocale
    {
      this.supported, this.supportedLocale := supported, supportedLocale;
      dateTimeFormatters := new FormatterCache(MAX_DATE_TIME_FORMATTERS);
      relativeFormatters := new FormatterCache(MAX_RELATIVE_FORMATTERS);
    }

    method DateTimeFormatter(key: string, locale: string, options: IntlOptions)
      returns (formatter: Option<DateTimeFormat>)
      requires Valid()
      requires supported(DateTimeFormat(locale, options)) ==> Honest(key, DateTimeFormat(locale, options), supported)
      modifies dateTimeFormatters
      ensures Valid() && |dateTimeFormatters.keys| <= 64
      ensures formatter.Some? ==> Honest(key, formatter.value, supported)
      ensures formatter.None? ==> !supported(DateTimeFormat(locale, options))
    {
      var built := if supported(DateTimeFormat(locale, options)) then Some(DateTimeFormat(locale, options)) else None;
      formatter := dateTimeFormatters.CacheFormatter(key, built);
    }

    method RelativeFormatter(locale: string) returns (formatter: Option<string>)
      requires Valid()
      modifies relativeFormatters
      ensures Valid() && |relativeFormatters.keys| <= 16
      ensures formatter == if supportedLocale(locale) then Some(locale) else None
    {
      formatter := relativeFormatters.CacheFormatter(locale, if supportedLocale(locale) then Some(locale) else None);
    }

    /** The caches never show: each call renders as if it had built its own formatter. */
    method FormatDateValue(hasDate: bool, kind: DateKind, options: DateFormatOptions) returns (rendering: Rendering)
      requires Valid()
      modifies dateTimeFormatters, relativeFormatters
      ensures Valid()
      ensures !hasDate ==> rendering == Fallback
      ensures hasDate && kind.Relative? ==>
        rendering == if supportedLocale(LocaleOf(options)) then RelativeTo(LocaleOf(options)) else Throws
      ensures hasDate && kind.Absolute? ==>
        var format := FormatterFor(RequestFor(kind.kind, options));
        rendering == if supported(format) then With(format) else Throws
      // Defaults, UTC over a zone, an empty zone is none, and a date alone has no clock.
      ensures hasDate && kind.Absolute? && rendering.With? ==>
        var hour12 := options.hour12 != Some(false);
        var zone :=
          if options.utc then Some("UTC") else if options.timeZone == Some("") then None else options.timeZone;
        && rendering.format.locale ==
           (if options.locale.None? || options.locale.value == "" then "en" else options.locale.value)
        && rendering.format.options ==
           if kind.kind.Time? then TimeStyle(hour12, zone)
           else if options.showTime != Some(false) then DateAndTimeStyle(kind.kind, hour12, zone)
           else DateStyle(kind.kind, zone)
    {
      if !hasDate { return Fallback; }
      if kind.Relative? {
        var relative := RelativeFormatter(LocaleOf(options));
        return if relative.Some? then RelativeTo(relative.value) else Throws;
      }
      var request := RequestFor(kind.kind, options);
      var formatter := DateTimeFormatter(KeyOf(request), request.locale, OptionsFor(request));
      if formatter.None? { return Throws; }
      HonestHit(request, formatter.value, supported);
      return With(formatter.value);
    }

    method FormatUtcMillis(hasDate: bool, locale: string) returns (rendering: Rendering)
      requires Valid()
      modifies dateTimeFormatters
      ensures Valid()
      ensures !hasDate ==> rendering == Fallback
      ensures hasDate ==>
        var format := DateTimeFormat(locale, UtcMillis); rendering == if supported(format) then With(format) else Throws
    {
      if !hasDate { return Fallback; }
      var formatter := DateTimeFormatter(UtcMillisKey(locale), locale, UtcMillis);
      if formatter.None? { return Throws; }
      HonestUtcHit(locale, formatter.value, supported);
      return With(formatter.value);
    }
  }
}

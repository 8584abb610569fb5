/** Metering and pricing of src/ai_api/proxy/realtime.py: audio bytes to started
    seconds or minutes, and those to money. Python's floats and Decimals are
    idealised as real numbers. */
module Metering {
  import opened Common

  /* ---------- Frames ---------- */

  /** A JSON field: absent or falsy, a whole number, or anything else. */
  datatype Field = Falsy | Number(n: int) | Other

  datatype Format = Format(rate: Field, sampleRate: Field, channels: Field, bytesPerSample: Field)

  const NO_FORMAT := Format(Falsy, Falsy, Falsy, Falsy)

  /** A place where a format may stand: anything but an object, {}, or an object. */
  datatype Slot = NoObject | EmptyObject | Object(format: Format)

  datatype Input = NoInput | Input(format: Slot)

  datatype Audio = NoAudio | Audio(input: Input, format: Slot)

  /** The session of a session.update, in the shapes clients send. */
  datatype Session = NoSession | Session(audio: Audio, inputAudioFormat: Slot)

  /** What a client frame means to the meter: an append that decodes to so many
      bytes, a format update, or nothing. */
  datatype Meaning = Append(bytes: nat) | Update(session: Session) | Unmetered

  datatype Frame = Frame(raw: string, event: Meaning)

  /* ---------- The meter ---------- */

  datatype Geometry = Geometry(sampleRate: int, bytesPerSample: int, channels: int)

  const DEFAULT_GEOMETRY := Geometry(24000, 2, 1)

  datatype Meter = Meter(bytes: nat, geometry: Geometry)

  const EMPTY := Meter(0, DEFAULT_GEOMETRY)

  /** A positive number replaces the current setting. */
  function Setting(f: Field, current: int): int {
    if f.Number? && f.n > 0 then f.n else current
  }

  /** The places in order of precedence, of which the first that is an object counts;
      an empty object among the first two leaves the word to input_audio_format. */
  function FormatIn(s: Session): Format {
    if s.NoSession? then NO_FORMAT
    else
      var inAudio :=
        if s.audio.NoAudio? then NoObject
        else if s.audio.input.Input? && !s.audio.input.format.NoObject? then s.audio.input.format
        else s.audio.format;
      if inAudio.Object? then inAudio.format
      else if s.inputAudioFormat.Object? then s.inputAudioFormat.format
      else NO_FORMAT
  }

  function Formatted(g: Geometry, f: Format): Geometry {
    Geometry(
      Setting(if f.rate == Falsy || f.rate == Number(0) then f.sampleRate else f.rate, g.sampleRate),
      Setting(f.bytesPerSample, g.bytesPerSample),
      Setting(f.channels, g.channels))
  }

  function Metered(m: Meter, f: Frame): Meter {
    match f.event
    case Append(n) => m.(bytes := m.bytes + n)
    case Update(session) => m.(geometry := Formatted(m.geometry, FormatIn(session)))
    case Unmetered => m
  }

  function MeteredFrom(m: Meter, frames: seq<Frame>): Meter {
    if frames == [] then m else Metered(MeteredFrom(m, frames[..|frames| - 1]), frames[|frames| - 1])
  }

  lemma MeteredOneMore(m: Meter, frames: seq<Frame>, f: Frame)
    ensures MeteredFrom(m, frames + [f]) == Metered(MeteredFrom(m, frames), f)
  {
    assert (frames + [f])[..|frames|] == frames;
  }

  /** The decoded bytes of all append frames. */
  function AppendedBytes(frames: seq<Frame>): nat {
    if frames == [] then 0
    else (if frames[0].event.Append? then frames[0].event.bytes else 0) + AppendedBytes(frames[1..])
  }

  lemma {:induction false} AppendedBytesOneMore(frames: seq<Frame>, f: Frame)
    ensures AppendedBytes(frames + [f]) == AppendedBytes(frames) + if f.event.Append? then f.event.bytes else 0
  {
    if frames == [] {
      assert frames + [f] == [f];
    } else {
      assert (frames + [f])[1..] == frames[1..] + [f];
      AppendedBytesOneMore(frames[1..], f);
    }
  }

  /** The meter counts every append frame whole, whatever formats come in between,
      and keeps a positive geometry. */
  lemma {:induction false} MeterCountsAppends(frames: seq<Frame>)
    ensures MeteredFrom(EMPTY, frames).bytes == AppendedBytes(frames)
    ensures Positive(MeteredFrom(EMPTY, frames).geometry)
  {
    if frames == [] {
    } else {
      var front, last := frames[..|frames| - 1], frames[|frames| - 1];
      MeterCountsAppends(front);
      AppendedBytesOneMore(front, last);
      assert frames == front + [last];
    }
  }

  predicate Positive(g: Geometry) {
    g.sampleRate > 0 && g.bytesPerSample > 0 && g.channels > 0
  }

  /* ---------- Bytes to started units ---------- */

  /** Bytes per second; not positive when the geometry is unknown. */
  function BytesPerSecond(g: Geometry): int {
    g.sampleRate * g.bytesPerSample * g.channels
  }

  function DurationSeconds(bytes: nat, g: Geometry): real {
    var denom := BytesPerSecond(g);
    if denom <= 0 then 0.0 else bytes as real / denom as real
  }

  /** math.ceil */
  function Ceil(x: real): int {
    -((-x).Floor)
  }

  function PcmBytesToMinutes(bytes: nat, g: Geometry): int {
    var secs := DurationSeconds(bytes, g);
    if secs <= 0.0 then 0 else Ceil(secs / 60.0)
  }

  function PcmBytesToSeconds(bytes: nat, g: Geometry): int {
    var secs := DurationSeconds(bytes, g);
    if secs <= 0.0 then 0 else Ceil(secs)
  }

  function SessionQuantity(m: Meter, unit: string): int {
    if unit == "minute" then PcmBytesToMinutes(m.bytes, m.geometry) else PcmBytesToSeconds(m.bytes, m.geometry)
  }

  /** Bytes in one unit. */
  function UnitBytes(g: Geometry, unit: string): int {
    if unit == "minute" then 60 * BytesPerSecond(g) else BytesPerSecond(g)
  }

  /** q units of u bytes are the fewest that hold the bytes. */
  predicate FewestUnits(q: int, u: int, bytes: int) {
    q * u >= bytes && (q - 1) * u < bytes
  }

  lemma FewestUnique(q: int, r: int, u: int, bytes: int)
    requires u > 0 && FewestUnits(q, u, bytes) && FewestUnits(r, u, bytes)
    ensures q == r
  {
    if q < r {
      MulMonotone(q, r - 1, u);
    } else if r < q {
      MulMonotone(r, q - 1, u);
    }
  }

  lemma MulMonotone(a: int, b: int, u: int)
    requires a <= b && u >= 0
    ensures a * u <= b * u
  {
  }

  lemma RealCeiling(x: real, bytes: nat, u: int)
    requires u > 0 && x * u as real == bytes as real
    ensures FewestUnits(Ceil(x), u, bytes)
  {
    var q := Ceil(x);
    assert (q - 1) as real < x <= q as real;
    UnitsSuffice(q, x, u, bytes);
    UnitsFallShort(q - 1, x, u, bytes);
  }

  lemma UnitsSuffice(q: int, x: real, u: nat, bytes: nat)
    requires u > 0 && x <= q as real && x * u as real == bytes as real
    ensures q * u >= bytes
  {
    ScaleUp(x, q as real, u as real);
    RealProduct(q, u);
  }

  lemma UnitsFallShort(q: int, x: real, u: nat, bytes: nat)
    requires u > 0 && q as real < x && x * u as real == bytes as real
    ensures q * u < bytes
  {
    ScaleUpStrict(q as real, x, u as real);
    RealProduct(q, u);
  }

  lemma {:induction false} RealProduct(q: int, u: nat)
    ensures (q * u) as real == q as real * u as real
  {
    if u == 0 {
    } else {
      RealProduct(q, u - 1);
      Distribute(u - 1, 1, q);
      DistributeReal((u - 1) as real, 1.0, q as real);
    }
  }

  lemma ScaleUp(x: real, y: real, u: real)
    requires x <= y && u > 0.0
    ensures x * u <= y * u
  {
  }

  lemma ScaleUpStrict(x: real, y: real, u: real)
    requires x < y && u > 0.0
    ensures x * u < y * u
  {
  }

  /** Billed units are the fewest whole units that hold the audio: a started unit is
      billed, and less than one unit is billed in excess. */
  lemma QuantityIsFewest(m: Meter, unit: string)
    requires BytesPerSecond(m.geometry) > 0
    ensures FewestUnits(SessionQuantity(m, unit), UnitBytes(m.geometry, unit), m.bytes)
    ensures SessionQuantity(m, unit) >= 0
  {
    var d := BytesPerSecond(m.geometry);
    var u := UnitBytes(m.geometry, unit);
    var secs := DurationSeconds(m.bytes, m.geometry);
    DivTimes(m.bytes as real, d as real);
    if m.bytes == 0 {
      assert secs == 0.0;
    } else {
      QuotientPositive(m.bytes as real, d as real);
      if unit == "minute" {
        SixtyTimes(secs, d as real);
        assert u as real == 60.0 * d as real;
        RealCeiling(secs / 60.0, m.bytes, u);
      } else {
        RealCeiling(secs, m.bytes, u);
      }
    }
  }

  lemma DivTimes(a: real, b: real)
    requires b > 0.0
    ensures a / b * b == a
  {
  }

  lemma QuotientPositive(a: real, b: real)
    requires a > 0.0 && b > 0.0
    ensures a / b > 0.0
  {
    if a / b <= 0.0 {
      ScaleUp(a / b, 0.0, b);
    }
  }

  lemma SixtyTimes(x: real, d: real)
    ensures (x / 60.0) * (60.0 * d) == x * d
  {
    var y := x / 60.0;
    assert y * 60.0 == x;
    assert y * (60.0 * d) == (y * 60.0) * d;
  }

  lemma UnknownGeometryIsFree(m: Meter, unit: string)
    requires BytesPerSecond(m.geometry) <= 0
    ensures SessionQuantity(m, unit) == 0
  {
  }

  lemma Regroup(r: int, d: int)
    ensures (r * 60) * d == r * (60 * d)
  {
  }

  lemma FewestNested(r: int, secs: int, d: int, bytes: int)
    requires d > 0 && FewestUnits(r, 60, secs) && FewestUnits(secs, d, bytes)
    ensures FewestUnits(r, 60 * d, bytes)
  {
    MulMonotone(secs, r * 60, d);
    MulMonotone((r - 1) * 60, secs - 1, d);
    Regroup(r, d);
    Regroup(r - 1, d);
  }

  /** The minutes of an audio are its seconds rounded up to minutes: rounding up
      twice is rounding up once. */
  lemma MinutesAreSecondsRoundedUp(m: Meter)
    ensures SessionQuantity(m, "minute") == Ceil(SessionQuantity(m, "second") as real / 60.0)
  {
    var d := BytesPerSecond(m.geometry);
    if d > 0 {
      var mins, secs := SessionQuantity(m, "minute"), SessionQuantity(m, "second");
      QuantityIsFewest(m, "minute");
      QuantityIsFewest(m, "second");
      var r := Ceil(secs as real / 60.0);
      assert FewestUnits(r, 60, secs) by {
        assert (r - 1) as real < secs as real / 60.0 <= r as real;
      }
      FewestNested(r, secs, d, m.bytes);
      FewestUnique(mins, r, 60 * d, m.bytes);
    } else {
      UnknownGeometryIsFree(m, "minute");
      UnknownGeometryIsFree(m, "second");
    }
  }

  /** More audio is never fewer units. */
  lemma QuantityMonotone(g: Geometry, a: nat, b: nat, unit: string)
    requires a <= b
    ensures SessionQuantity(Meter(a, g), unit) <= SessionQuantity(Meter(b, g), unit)
  {
    if BytesPerSecond(g) > 0 {
      QuantityIsFewest(Meter(a, g), unit);
      QuantityIsFewest(Meter(b, g), unit);
      var p, q, u := SessionQuantity(Meter(a, g), unit), SessionQuantity(Meter(b, g), unit), UnitBytes(g, unit);
      if q < p {
        MulMonotone(q, p - 1, u);
      }
    } else {
      UnknownGeometryIsFree(Meter(a, g), unit);
      UnknownGeometryIsFree(Meter(b, g), unit);
    }
  }

  lemma Distribute(a: int, b: int, u: int)
    ensures (a + b) * u == a * u + b * u
  {
  }

  lemma FewestOfSum(p: int, q: int, w: int, u: int, a: int, b: int)
    requires u > 0 && FewestUnits(p, u, a) && FewestUnits(q, u, b) && FewestUnits(w, u, a + b)
    ensures w <= p + q <= w + 1
  {
    Distribute(p, q, u);
    Distribute(p - 1, q - 1, u);
    if w > p + q {
      MulMonotone(p + q, w - 1, u);
    }
    if p + q > w + 1 {
      MulMonotone(w, (p - 1) + (q - 1), u);
    }
  }

  /** Splitting audio over two connections never bills less, and at most one unit more. */
  lemma SplittingNeverSaves(g: Geometry, a: nat, b: nat, unit: string)
    ensures var whole := SessionQuantity(Meter(a + b, g), unit);
      var parts := SessionQuantity(Meter(a, g), unit) + SessionQuantity(Meter(b, g), unit);
      whole <= parts <= whole + 1
  {
    if BytesPerSecond(g) > 0 {
      QuantityIsFewest(Meter(a, g), unit);
      QuantityIsFewest(Meter(b, g), unit);
      QuantityIsFewest(Meter(a + b, g), unit);
      FewestOfSum(SessionQuantity(Meter(a, g), unit), SessionQuantity(Meter(b, g), unit),
        SessionQuantity(Meter(a + b, g), unit), UnitBytes(g, unit), a, b);
    } else {
      UnknownGeometryIsFree(Meter(a, g), unit);
      UnknownGeometryIsFree(Meter(b, g), unit);
      UnknownGeometryIsFree(Meter(a + b, g), unit);
    }
  }

  /* ---------- Money ---------- */

  /** A price row; token-priced rows carry neither a unit nor a per-unit price. */
  datatype Price = Price(unit: Option<string>, perUnit: Option<real>)

  function UnitOf(price: Option<Price>): string {
    if price.Some? && price.value.unit in {Some("second"), Some("minute")} then price.value.unit.value else "second"
  }

  function Charge(quantity: int, price: Option<Price>): real {
    if price.None? || price.value.perUnit.None? then 0.0 else quantity as real * price.value.perUnit.value
  }

  /** session_running_cost, with the price captured at connect. */
  function RunningCost(m: Meter, price: Option<Price>): real {
    Charge(SessionQuantity(m, UnitOf(price)), price)
  }

  /** calculate_unit_cost */
  function UnitCost(quantity: int, perUnit: Option<real>): real {
    if quantity == 0 || perUnit.None? then 0.0 else quantity as real * perUnit.value
  }

  /** The cost column of the record; an unpriced call leaves it empty. */
  function BilledCost(m: Meter, price: Option<Price>): Option<real> {
    if price.None? then None else Some(UnitCost(SessionQuantity(m, UnitOf(price)), price.value.perUnit))
  }

  /** The amount in a cost column: an empty column counts as nothing. */
  function Amount(cost: Option<real>): real {
    if cost.Some? then cost.value else 0.0
  }

  predicate NonNegative(price: Option<Price>) {
    price.Some? && price.value.perUnit.Some? ==> price.value.perUnit.value >= 0.0
  }

  /** With the price row unchanged the cost column is the running cost at close. */
  lemma BillIsRunningCost(m: Meter, price: Option<Price>)
    ensures Amount(BilledCost(m, price)) == RunningCost(m, price)
  {
  }

  lemma SilenceIsFree(g: Geometry, price: Option<Price>)
    ensures RunningCost(Meter(0, g), price) == 0.0
  {
    if BytesPerSecond(g) > 0 {
      assert DurationSeconds(0, g) == 0.0;
    }
    assert SessionQuantity(Meter(0, g), UnitOf(price)) == 0;
  }

  /** Audio after a point costs at most what it would cost alone. */
  lemma CostSubadditive(g: Geometry, a: nat, b: nat, price: Option<Price>)
    requires NonNegative(price)
    ensures RunningCost(Meter(a + b, g), price) <= RunningCost(Meter(a, g), price) + RunningCost(Meter(b, g), price)
  {
    var unit := UnitOf(price);
    SplittingNeverSaves(g, a, b, unit);
    ChargeOfParts(SessionQuantity(Meter(a + b, g), unit),
      SessionQuantity(Meter(a, g), unit), SessionQuantity(Meter(b, g), unit), price);
  }

  /** More audio never costs less. */
  lemma CostMonotone(g: Geometry, a: nat, b: nat, price: Option<Price>)
    requires NonNegative(price) && a <= b
    ensures RunningCost(Meter(a, g), price) <= RunningCost(Meter(b, g), price)
  {
    var unit := UnitOf(price);
    QuantityMonotone(g, a, b, unit);
    if price.Some? && price.value.perUnit.Some? {
      ScaleNonNegative(
        SessionQuantity(Meter(a, g), unit) as real, SessionQuantity(Meter(b, g), unit) as real,
        price.value.perUnit.value);
    }
  }

  lemma ChargeOfParts(w: int, x: int, y: int, price: Option<Price>)
    requires w <= x + y && NonNegative(price)
    ensures Charge(w, price) <= Charge(x, price) + Charge(y, price)
  {
    if price.Some? && price.value.perUnit.Some? {
      ScaleNonNegative(w as real, (x + y) as real, price.value.perUnit.value);
      DistributeReal(x as real, y as real, price.value.perUnit.value);
    }
  }

  lemma DistributeReal(x: real, y: real, p: real)
    ensures (x + y) * p == x * p + y * p
  {
  }

  lemma ScaleNonNegative(x: real, y: real, p: real)
    requires x <= y && p >= 0.0
    ensures x * p <= y * p
  {
  }

  /** Any audio at all is at least one unit. */
  lemma SomeAudioIsBilled(m: Meter, unit: string)
    requires m.bytes > 0 && Positive(m.geometry)
    ensures SessionQuantity(m, unit) >= 1
  {
    ProductPositive(m.geometry.sampleRate, m.geometry.bytesPerSample);
    ProductPositive(m.geometry.sampleRate * m.geometry.bytesPerSample, m.geometry.channels);
    QuantityIsFewest(m, unit);
    if SessionQuantity(m, unit) <= 0 {
      MulMonotone(SessionQuantity(m, unit), 0, UnitBytes(m.geometry, unit));
    }
  }

  lemma ProductPositive(a: int, b: int)
    requires a > 0 && b > 0
    ensures a * b > 0
  {
  }

  /** Audio that one update makes cheaper or dearer: whether it never bills fewer units. */
  ghost predicate NeverFewer(g: Geometry, g': Geometry, unit: string) {
    forall bytes: nat :: SessionQuantity(Meter(bytes, g), unit) <= SessionQuantity(Meter(bytes, g'), unit)
  }

  /** The whole audio is billed in the geometry of the end: a format update never
      lowers a quantity, in either unit, if and only if it does not raise the bytes
      per second. */
  lemma UpdateKeepsQuantity(g: Geometry, g': Geometry, unit: string)
    requires BytesPerSecond(g) > 0 && BytesPerSecond(g') > 0
    ensures NeverFewer(g, g', unit) <==> BytesPerSecond(g') <= BytesPerSecond(g)
  {
    var u, u' := UnitBytes(g, unit), UnitBytes(g', unit);
    if u' <= u {
      forall bytes: nat ensures SessionQuantity(Meter(bytes, g), unit) <= SessionQuantity(Meter(bytes, g'), unit) {
        QuantityIsFewest(Meter(bytes, g), unit);
        QuantityIsFewest(Meter(bytes, g'), unit);
        SmallerUnitsMore(SessionQuantity(Meter(bytes, g), unit), SessionQuantity(Meter(bytes, g'), unit), u, u', bytes);
      }
    } else {
      var bytes: nat := u + 1;
      QuantityIsFewest(Meter(bytes, g), unit);
      QuantityIsFewest(Meter(bytes, g'), unit);
      FewestUnique(SessionQuantity(Meter(bytes, g'), unit), 1, u', bytes);
      MoreThanOne(SessionQuantity(Meter(bytes, g), unit), u, bytes);
    }
  }

  lemma SmallerUnitsMore(q: int, q': int, u: int, u': int, bytes: int)
    requires 0 < u' <= u && q' >= 0 && FewestUnits(q, u, bytes) && FewestUnits(q', u', bytes)
    ensures q <= q'
  {
    MulMonotone(u', u, q');
    if q' < q {
      MulMonotone(q', q - 1, u);
    }
  }

  lemma MoreThanOne(q: int, u: int, bytes: int)
    requires u > 0 && bytes > u && FewestUnits(q, u, bytes)
    ensures q > 1
  {
    if q <= 1 {
      MulMonotone(q, 1, u);
    }
  }

  /* ---------- What an update changes, and what a price bills ---------- */

  /** An update with this session counts nothing, and sets what this format says. */
  predicate Heeds(m: Meter, raw: string, s: Session, f: Format) {
    Metered(m, Frame(raw, Update(s))) == Meter(m.bytes, Formatted(m.geometry, f))
  }

  /** Of several formats in an update the one of audio.input counts, else that of audio,
      else input_audio_format ... */
  lemma SlotPrecedence(m: Meter, raw: string, f: Format, inner: Slot, outer: Slot)
    ensures Heeds(m, raw, Session(Audio(Input(Object(f)), inner), outer), f)
    ensures Heeds(m, raw, Session(Audio(NoInput, Object(f)), outer), f)
    ensures Heeds(m, raw, Session(Audio(Input(NoObject), Object(f)), outer), f)
    ensures Heeds(m, raw, Session(NoAudio, Object(f)), f)
  {
  }

  /** ... but an empty object in audio.input gives way to input_audio_format alone, as
      does a missing or empty one in audio. */
  lemma OuterSlot(m: Meter, raw: string, f: Format, inner: Slot)
    ensures Heeds(m, raw, Session(Audio(Input(EmptyObject), inner), Object(f)), f)
    ensures !inner.Object? ==> Heeds(m, raw, Session(Audio(NoInput, inner), Object(f)), f)
    ensures !inner.Object? ==> Heeds(m, raw, Session(Audio(Input(NoObject), inner), Object(f)), f)
  {
  }

  /** An update without a format that counts leaves the meter as it was. */
  lemma NoFormatNoChange(m: Meter, raw: string, s: Session)
    requires s.Session? ==> !s.inputAudioFormat.Object?
    requires s.Session? && s.audio.Audio? ==>
      || (s.audio.input.Input? && s.audio.input.format.EmptyObject?)
      || (!(s.audio.input.Input? && s.audio.input.format.Object?) && !s.audio.format.Object?)
    ensures Metered(m, Frame(raw, Update(s))) == m
  {
  }

  predicate PositiveNumber(f: Field) {
    f.Number? && f.n > 0
  }

  /** Each setting is replaced by the positive number in its own field; the sample rate is
      read from `rate`, and from `sample_rate` only if that is missing or 0. */
  lemma SettingsRead(g: Geometry, f: Format)
    ensures var after := Formatted(g, f);
      && after.channels == (if PositiveNumber(f.channels) then f.channels.n else g.channels)
      && after.bytesPerSample == (if PositiveNumber(f.bytesPerSample) then f.bytesPerSample.n else g.bytesPerSample)
      && (PositiveNumber(f.rate) ==> after.sampleRate == f.rate.n)
      && (f.rate in {Falsy, Number(0)} ==>
            after.sampleRate == if PositiveNumber(f.sampleRate) then f.sampleRate.n else g.sampleRate)
      && (!PositiveNumber(f.rate) && f.rate !in {Falsy, Number(0)} ==> after.sampleRate == g.sampleRate)
  {
  }

  /** A price per minute bills started minutes, every other price started seconds, of so
      many samples of so many bytes on so many channels each; without a price per unit
      nothing is charged. */
  lemma PriceBillsItsUnit(m: Meter, price: Option<Price>)
    requires Positive(m.geometry)
    ensures var g := m.geometry;
      var second := g.sampleRate * g.bytesPerSample * g.channels;
      var minutely := price.Some? && price.value.unit == Some("minute");
      var unit := if minutely then 60 * second else second;
      var q := SessionQuantity(m, UnitOf(price));
      && UnitOf(price) == (if minutely then "minute" else "second")
      && (q - 1) * unit < m.bytes <= q * unit
      && RunningCost(m, price) ==
           (if price.Some? && price.value.perUnit.Some? then q as real * price.value.perUnit.value else 0.0)
      && (BilledCost(m, price).None? <==> price.None?)
  {
    var g := m.geometry;
    ProductPositive(g.sampleRate, g.bytesPerSample);
    ProductPositive(g.sampleRate * g.bytesPerSample, g.channels);
    QuantityIsFewest(m, UnitOf(price));
    assert "minute"[0] != "second"[0];
  }

  /** Until a format comes, a second of audio is 48000 bytes: 24 kHz, 16 bit, mono. */
  lemma DefaultSecond(bytes: nat)
    ensures var q := SessionQuantity(EMPTY.(bytes := bytes), "second");
      (q - 1) * 48000 < bytes <= q * 48000
    ensures EMPTY.bytes == 0 && Formatted(EMPTY.geometry, NO_FORMAT) == Geometry(24000, 2, 1)
  {
    QuantityIsFewest(EMPTY.(bytes := bytes), "second");
    assert "minute"[0] != "second"[0];
  }
}

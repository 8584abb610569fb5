/** src/ai_api/api/admin_catalog.py: where each synced field of a catalog model comes from. */
module CatalogSync {
  import opened Common
  import M = Metering
  import opened Pricing
  import opened ResponsesSupport
  import opened LitellmRegistry

  datatype Origin = Litellm | Borrowed | Manual

  datatype Sync = Sync(
    baseKey: string, version: string, sources: map<Field, Origin>, snapshot: map<Field, Value>, raw: Entry)

  /** A catalog row: its fields, and where the syncable ones come from, if it has a
      counterpart in the registry. */
  datatype Row = Row(slug: string, values: map<Field, Value>, sync: Option<Sync>)

  /** The fields that are there are of their kind. */
  predicate Typed(values: map<Field, Value>) {
    Capabilities in values ==> values[Capabilities].Labels?
  }

  ghost predicate Complete(values: map<Field, Value>) {
    Typed(values) && forall f | Syncable(f) :: f in values
  }

  function CapsOf(values: map<Field, Value>): seq<string>
    requires Complete(values)
  {
    values[Capabilities].labels
  }

  /** What the registry says of a model: all syncable fields, and clean capabilities. */
  ghost predicate Described(meta: map<Field, Value>) {
    Complete(meta) && Clean(CapsOf(meta))
  }

  lemma MetadataWhole(entry: Entry)
    ensures Described(MetadataFrom(entry))
  {
    RegistryIsClean(entry);
  }

  ghost predicate SyncWhole(sync: Option<Sync>) {
    sync.Some? ==>
      && Described(sync.value.snapshot)
      && forall f | Syncable(f) :: f in sync.value.sources
  }

  ghost predicate Whole(row: Row) {
    Complete(row.values) && SyncWhole(row.sync)
  }

  /* ---------- What the handlers do to a row ---------- */

  function OriginOf(values: map<Field, Value>, meta: map<Field, Value>, matched: Origin, f: Field): Origin
    requires Complete(values) && Complete(meta) && Syncable(f)
  {
    if values[f] == meta[f] then matched else Manual
  }

  function SourcesAtCreation(values: map<Field, Value>, meta: map<Field, Value>, matched: Origin): map<Field, Origin>
    requires Complete(values) && Complete(meta)
  {
    map f | f in SYNCABLE_FIELDS && Syncable(f) :: OriginOf(values, meta, matched, f)
  }

  /** The registry key of a new model: the one given, or the slug if it is one. */
  function KeyAtCreation(slug: string, baseKey: Option<string>, bundled: Registry): Option<string> {
    if baseKey.Some? && baseKey.value != "" then baseKey else if slug in bundled then Some(slug) else None
  }

  function Created(
      slug: string, values: map<Field, Value>, baseKey: Option<string>, bundled: Registry, version: string): (row: Row)
    requires Complete(values)
  {
    var key := KeyAtCreation(slug, baseKey, bundled);
    if key.None? || key.value !in bundled then Row(slug, values, None)
    else
      MetadataWhole(bundled[key.value]);
      var entry, matched := bundled[key.value], if Borrows(slug, baseKey) then Borrowed else Litellm;
      var meta := MetadataFrom(entry);
      Row(slug, values, Some(Sync(key.value, version, SourcesAtCreation(values, meta, matched), meta, entry)))
  }

  predicate Borrows(slug: string, baseKey: Option<string>) {
    baseKey.Some? && baseKey.value != "" && baseKey.value != slug
  }

  /** The syncable ones among these fields. */
  function Picks(fields: seq<Field>): set<Field> {
    set f | f in fields && Syncable(f)
  }

  function Touched(changes: map<Field, Value>): set<Field> {
    set f | f in changes && Syncable(f)
  }

  function Attribute(sources: map<Field, Origin>, fields: set<Field>, origin: Origin): map<Field, Origin> {
    sources + map f | f in fields :: origin
  }

  /** Edited fields take the new value and become manual; snapshots stay. */
  function Updated(row: Row, changes: map<Field, Value>): Row {
    row.(
      values := row.values + changes,
      sync :=
        if row.sync.None? then None
        else Some(row.sync.value.(sources := Attribute(row.sync.value.sources, Touched(changes), Manual))))
  }

  function RegistryKey(row: Row): string {
    if row.sync.Some? && row.sync.value.baseKey != "" then row.sync.value.baseKey else row.slug
  }

  /** The value that an apply gives to a field: the registry's, but the responses markers
      among the capabilities are kept. */
  function Adopted(values: map<Field, Value>, meta: map<Field, Value>, f: Field): Value
    requires Complete(values) && Complete(meta) && Syncable(f)
  {
    if f == Capabilities then Labels(PreserveInto(CapsOf(meta), CapsOf(values))) else meta[f]
  }

  function Adopting(values: map<Field, Value>, meta: map<Field, Value>, fields: set<Field>): map<Field, Value>
    requires Complete(values) && Complete(meta)
  {
    values + map f | f in fields && Syncable(f) :: Adopted(values, meta, f)
  }

  function Refreshed(snapshot: map<Field, Value>, meta: map<Field, Value>, fields: set<Field>): map<Field, Value> {
    snapshot + map f | f in fields && f in meta :: meta[f]
  }

  function Applied(row: Row, meta: map<Field, Value>, entry: Entry, version: string, fields: set<Field>): Row
    requires Complete(row.values) && Complete(meta)
  {
    row.(
      values := Adopting(row.values, meta, fields),
      sync :=
        if row.sync.None? || fields == {} then row.sync
        else
          var s := row.sync.value;
          Some(Sync(
            s.baseKey, version, Attribute(s.sources, fields, Litellm), Refreshed(s.snapshot, meta, fields), entry)))
  }

  /** A model that the registry does not know is refused. */
  function AppliedFrom(row: Row, latest: Registry, version: string, fields: seq<Field>): Row
    requires Complete(row.values)
  {
    var key := RegistryKey(row);
    if key !in latest then row
    else
      MetadataWhole(latest[key]);
      Applied(row, MetadataFrom(latest[key]), latest[key], version, Picks(fields))
  }

  function Marked(row: Row, m: Marking): Row
    requires Complete(row.values)
  {
    row.(values := row.values[Capabilities := Labels(Mark(CapsOf(row.values), m))])
  }

  /** The check: how a field of the row stands to the registry. */
  datatype Diff = Diff(field: Field, current: Value, latest: Value, source: Origin, changed: bool)

  function SourceOf(row: Row, f: Field): Origin {
    if row.sync.Some? && f in row.sync.value.sources then row.sync.value.sources[f] else Manual
  }

  function DiffOf(row: Row, meta: map<Field, Value>, f: Field): Diff
    requires Complete(row.values) && Complete(meta) && Syncable(f)
  {
    Diff(f, row.values[f], meta[f], SourceOf(row, f), row.values[f] != meta[f])
  }

  function DiffsOf(row: Row, meta: map<Field, Value>, fields: seq<Field>): seq<Diff>
    requires Complete(row.values) && Complete(meta) && forall f | f in fields :: Syncable(f)
  {
    seq(|fields|, i requires 0 <= i < |fields| => DiffOf(row, meta, fields[i]))
  }

  /** All syncable fields, if the registry knows the model. */
  function Checked(row: Row, latest: Registry): seq<Diff>
    requires Complete(row.values)
  {
    var key := RegistryKey(row);
    if key !in latest then []
    else
      MetadataWhole(latest[key]);
      AllSyncable();
      DiffsOf(row, MetadataFrom(latest[key]), SYNCABLE_FIELDS)
  }

  lemma AllSyncable()
    ensures forall f | f in SYNCABLE_FIELDS :: Syncable(f)
  {
    forall f | f in SYNCABLE_FIELDS ensures Syncable(f) {
      SyncableFields(f);
    }
  }

  function PricesChecked(row: Row, latest: Registry, rows: seq<Version>, provider: string, now: Time): seq<PriceDiff> {
    var key := RegistryKey(row);
    if key !in latest then []
    else DiffsIn(COLUMNS, QuoteOf(Current(rows, provider, Bare(row.slug), now)), PriceFrom(latest[key]))
  }

  /** What an apply answers. */
  function Answer(
      row: Row, provider: string, latest: Registry, fields: seq<Field>, rows: seq<Version>, now: Time): Reply
  {
    var key := RegistryKey(row);
    if key !in latest then ModelNotFound
    else if Refused(rows, NewVersions(provider, row.slug, latest[key], fields, now)) then PriceRefused
    else Done
  }

  /* ---------- The handlers themselves ---------- */

  /** _build_litellm_sync. */
  method BuildLitellmSync(
      slug: string, values: map<Field, Value>, baseKey: Option<string>, bundled: Registry, version: string)
    returns (sync: Option<Sync>)
    requires Complete(values)
    ensures sync == Created(slug, values, baseKey, bundled, version).sync
  {
    var key := baseKey;
    if key.None? || key.value == "" {
      key := if slug in bundled then Some(slug) else None;
    }
    if key.None? || key.value !in bundled {
      return None;
    }
    MetadataWhole(bundled[key.value]);
    var meta := MetadataFrom(bundled[key.value]);
    var borrowed := baseKey.Some? && baseKey.value != "" && baseKey.value != slug;
    var sources := MatchFields(values, meta, if borrowed then Borrowed else Litellm);
    return Some(Sync(key.value, version, sources, meta, bundled[key.value]));
  }

  /** A field that agrees with the registry comes from there, any other is manual. */
  method MatchFields(values: map<Field, Value>, meta: map<Field, Value>, matched: Origin)
    returns (sources: map<Field, Origin>)
    requires Complete(values) && Complete(meta)
    ensures sources == SourcesAtCreation(values, meta, matched)
  {
    sources := map[];
    for i := 0 to |SYNCABLE_FIELDS|
      invariant forall f :: f in sources <==> f in SYNCABLE_FIELDS[..i]
      invariant forall f | f in sources :: Syncable(f) && sources[f] == OriginOf(values, meta, matched, f)
    {
      var f := SYNCABLE_FIELDS[i];
      assert SYNCABLE_FIELDS[..i + 1] == SYNCABLE_FIELDS[..i] + [f];
      SyncableFields(f);
      sources := sources[f := if values[f] == meta[f] then matched else Manual];
    }
    assert SYNCABLE_FIELDS[..|SYNCABLE_FIELDS|] == SYNCABLE_FIELDS;
    forall f ensures Syncable(f) <==> f in SYNCABLE_FIELDS {
      SyncableFields(f);
    }
  }

  /** Marks the touched fields manual, in any order. */
  method MarkManual(given: map<Field, Origin>, touched: set<Field>) returns (sources: map<Field, Origin>)
    ensures sources == Attribute(given, touched, Manual)
  {
    sources := given;
    var todo := touched;
    AttributeNone(given, Manual);
    while todo != {}
      invariant todo <= touched && sources == Attribute(given, touched - todo, Manual)
      decreases |todo|
    {
      var f :| f in todo;
      AttributeOneMore(given, touched - todo, Manual, f);
      assert touched - (todo - {f}) == touched - todo + {f};
      sources := sources[f := Manual];
      todo := todo - {f};
    }
    assert touched - {} == touched;
  }

  /** Marks the applied fields as coming from the registry, and renews their snapshot. */
  method RecordFields(
      given: map<Field, Origin>, before: map<Field, Value>, meta: map<Field, Value>, appliedMeta: seq<Field>)
    returns (sources: map<Field, Origin>, snapshot: map<Field, Value>)
    requires forall f | f in appliedMeta :: f in meta
    ensures sources == Attribute(given, (set f | f in appliedMeta), Litellm)
    ensures snapshot == Refreshed(before, meta, (set f | f in appliedMeta))
  {
    sources, snapshot := given, before;
    ghost var done: set<Field> := {};
    AttributeNone(given, Litellm);
    RefreshNone(before, meta);
    for i := 0 to |appliedMeta|
      invariant done == set f | f in appliedMeta[..i]
      invariant sources == Attribute(given, done, Litellm) && snapshot == Refreshed(before, meta, done)
    {
      var f := appliedMeta[i];
      assert appliedMeta[..i + 1] == appliedMeta[..i] + [f];
      assert f in appliedMeta;
      AttributeOneMore(given, done, Litellm, f);
      RefreshOneMore(before, meta, done, f);
      sources, snapshot := sources[f := Litellm], snapshot[f := meta[f]];
      done := done + {f};
    }
    assert appliedMeta[..|appliedMeta|] == appliedMeta;
  }

  /** An apply that asked for the price adds the registry's token columns of it. */
  function Flattened(q: Quote): Quote {
    q.(unit := None, perUnit := None)
  }

  predicate WantsPrice(fields: seq<Field>) {
    exists f :: f in fields && f.Price?
  }

  /** The version that an apply adds, if it asks for the price and the registry has one. */
  function NewVersions(provider: string, slug: string, entry: Entry, fields: seq<Field>, now: Time): seq<Version> {
    if WantsPrice(fields) && PriceFrom(entry).Some?
    then [Version(provider, Bare(slug), Flattened(PriceFrom(entry).value), now)]
    else []
  }

  /** Some version that is due cannot be filed. */
  predicate Refused(rows: seq<Version>, due: seq<Version>) {
    due != [] && (!Acceptable(due[0].quote) || Taken(rows, due[0].provider, due[0].model, due[0].effectiveFrom))
  }

  function QuoteOf(v: Option<Version>): Option<Quote> {
    if v.Some? then Some(v.value.quote) else None
  }

  datatype Reply = Done | ModelNotFound | PriceRefused

  class ModelCatalog {
    const provider: string
    const slug: string
    var values: map<Field, Value>
    var sync: Option<Sync>

    ghost function Contents(): Row
      reads this
    {
      Row(slug, values, sync)
    }

    /** admin_create_model. */
    constructor (
        provider: string, slug: string, values: map<Field, Value>, baseKey: Option<string>, bundled: Registry,
        version: string)
      requires Complete(values)
      ensures this.provider == provider && Contents() == Created(slug, values, baseKey, bundled, version)
    {
      var built := BuildLitellmSync(slug, values, baseKey, bundled, version);
      this.provider, this.slug, this.values, this.sync := provider, slug, values, built;
    }

    /** admin_update_model: first every change is stored, then the touched syncable
        fields are marked manual. */
    method Update(changes: map<Field, Value>)
      modifies this`values, this`sync
      ensures Contents() == Updated(old(Contents()), changes)
    {
      var touched := StoreChanges(changes);
      if touched != {} && sync.Some? {
        var sources := MarkManual(sync.value.sources, touched);
        sync := Some(sync.value.(sources := sources));
      } else if sync.Some? {
        AttributeNone(sync.value.sources, Manual);
      }
    }

    method StoreChanges(changes: map<Field, Value>) returns (touched: set<Field>)
      modifies this`values
      ensures values == old(values) + changes && touched == Touched(changes)
    {
      var todo := changes.Keys;
      touched := {};
      while todo != {}
        invariant todo <= changes.Keys
        invariant values == old(values) + (changes - todo)
        invariant forall f :: f in touched <==> f in changes && f !in todo && Syncable(f)
        decreases |todo|
      {
        var f :| f in todo;
        StoreOneMore(old(values), changes, todo, f);
        values := values[f := changes[f]];
        todo := todo - {f};
        if Syncable(f) {
          touched := touched + {f};
        }
      }
      assert changes - {} == changes;
    }

    /** admin_litellm_check: the syncable fields, then the price now current. */
    method Check(latest: Registry, prices: PriceList, now: Time) returns (diffs: seq<Diff>, priceDiffs: seq<PriceDiff>)
      requires Complete(values)
      ensures diffs == Checked(Contents(), latest)
      ensures priceDiffs == PricesChecked(Contents(), latest, prices.rows, provider, now)
    {
      var key := if sync.Some? && sync.value.baseKey != "" then sync.value.baseKey else slug;
      if key !in latest {
        return [], [];
      }
      MetadataWhole(latest[key]);
      AllSyncable();
      diffs := Compare(MetadataFrom(latest[key]));
      var current := SelectCurrent(prices.rows, provider, Bare(slug), now);
      priceDiffs := PriceDiffs(QuoteOf(current), PriceFrom(latest[key]));
    }

    method Compare(meta: map<Field, Value>) returns (diffs: seq<Diff>)
      requires Complete(values) && Complete(meta) && forall f | f in SYNCABLE_FIELDS :: Syncable(f)
      ensures diffs == DiffsOf(Contents(), meta, SYNCABLE_FIELDS)
    {
      diffs := [];
      for i := 0 to |SYNCABLE_FIELDS|
        invariant diffs == DiffsOf(Contents(), meta, SYNCABLE_FIELDS[..i])
      {
        var f := SYNCABLE_FIELDS[i];
        SyncableFields(f);
        assert SYNCABLE_FIELDS[..i + 1] == SYNCABLE_FIELDS[..i] + [f];
        var source := if sync.Some? && f in sync.value.sources then sync.value.sources[f] else Manual;
        diffs := diffs + [Diff(f, values[f], meta[f], source, values[f] != meta[f])];
      }
      assert SYNCABLE_FIELDS[..|SYNCABLE_FIELDS|] == SYNCABLE_FIELDS;
    }

    /** admin_litellm_apply: the fields are taken in the order given, repeated or not.
        A model the registry does not know is refused, and so is a price that cannot be
        filed: then the transaction takes the fields back too. */
    method Apply(latest: Registry, version: string, fields: seq<Field>, prices: PriceList, now: Time)
      returns (reply: Reply)
      requires Complete(values) && OneAtATime(prices.rows)
      modifies this`values, this`sync, prices
      ensures OneAtATime(prices.rows)
      ensures reply == Answer(old(Contents()), provider, latest, fields, old(prices.rows), now)
      ensures reply.Done? ==>
        && Contents() == AppliedFrom(old(Contents()), latest, version, fields)
        && prices.rows == old(prices.rows)
             + NewVersions(provider, slug, latest[RegistryKey(old(Contents()))], fields, now)
      ensures !reply.Done? ==> Contents() == old(Contents()) && prices.rows == old(prices.rows)
    {
      var key := if sync.Some? && sync.value.baseKey != "" then sync.value.baseKey else slug;
      if key !in latest {
        return ModelNotFound;
      }
      var entry := latest[key];
      var valuesBefore, syncBefore := values, sync;
      MetadataWhole(entry);
      var wantPrice := ApplyEntry(MetadataFrom(entry), entry, version, fields);
      var created := Added;
      if wantPrice {
        var quote := PriceFrom(entry);
        if quote.Some? {
          created := prices.CreateVersion(provider, Bare(slug), Flattened(quote.value), now);
        }
      }
      if !created.Added? {
        values, sync := valuesBefore, syncBefore;
        return PriceRefused;
      }
      return Done;
    }

    method ApplyEntry(meta: map<Field, Value>, entry: Entry, version: string, fields: seq<Field>)
      returns (wantPrice: bool)
      requires Complete(values) && Complete(meta)
      modifies this`values, this`sync
      ensures wantPrice == WantsPrice(fields)
      ensures Contents() == Applied(old(Contents()), meta, entry, version, Picks(fields))
    {
      var appliedMeta;
      appliedMeta, wantPrice := AdoptFields(meta, fields);
      if appliedMeta != [] && sync.Some? {
        assert appliedMeta[0] in Picks(fields);
        var sources, snapshot := RecordFields(sync.value.sources, sync.value.snapshot, meta, appliedMeta);
        assert (set f | f in appliedMeta) == Picks(fields);
        sync := Some(Sync(sync.value.baseKey, version, sources, snapshot, entry));
      } else if appliedMeta == [] {
        assert forall f | f in Picks(fields) :: f in appliedMeta;
        assert Picks(fields) == {};
      }
    }

    method AdoptFields(meta: map<Field, Value>, fields: seq<Field>)
      returns (appliedMeta: seq<Field>, wantPrice: bool)
      requires Complete(values) && Complete(meta)
      modifies this`values
      ensures wantPrice == WantsPrice(fields)
      ensures forall f :: f in appliedMeta <==> f in Picks(fields)
      ensures values == Adopting(old(values), meta, Picks(fields))
    {
      appliedMeta, wantPrice := [], false;
      ghost var taken: set<Field> := {};
      AdoptNone(values, meta);
      for i := 0 to |fields|
        invariant Complete(values)
        invariant wantPrice == WantsPrice(fields[..i])
        invariant taken == Picks(fields[..i]) && forall f :: f in appliedMeta <==> f in taken
        invariant values == Adopting(old(values), meta, taken)
      {
        var f := fields[i];
        assert fields[..i + 1] == fields[..i] + [f];
        PickOneMore(fields[..i], f);
        if Syncable(f) {
          AdoptOneMore(old(values), meta, taken, f);
          var value := meta[f];
          if f == Capabilities {
            value := Labels(PreserveInto(CapsOf(meta), CapsOf(values)));
          }
          values := values[f := value];
          appliedMeta := appliedMeta + [f];
          taken := taken + {f};
        } else if f.Price? {
          wantPrice := true;
        }
      }
      assert fields[..|fields|] == fields;
    }

    /** admin_test_responses after a call that succeeded: a manual block wins. */
    method RecordTestOk()
      requires Complete(values)
      modifies this`values
      ensures Contents() == AfterTestOk(old(Contents()))
    {
      if GetSupport(CapsOf(values)).state != Unavailable {
        values := values[Capabilities := Labels(Mark(CapsOf(values), TestedOk))];
      }
    }

    /** admin_set_responses_support. */
    method SetResponsesSupport(available: bool)
      requires Complete(values)
      modifies this`values
      ensures Contents() == Marked(old(Contents()), if available then ManualOn else ManualOff)
    {
      var caps := if available then Mark(CapsOf(values), ManualOn) else Mark(CapsOf(values), ManualOff);
      values := values[Capabilities := Labels(caps)];
    }
  }

  function AfterTestOk(row: Row): Row
    requires Complete(row.values)
  {
    if GetSupport(CapsOf(row.values)).state == Unavailable then row else Marked(row, TestedOk)
  }

  /* ---------- Steps of the loops ---------- */

  lemma StoreOneMore(values: map<Field, Value>, changes: map<Field, Value>, todo: set<Field>, f: Field)
    requires f in todo && f in changes
    ensures (values + (changes - todo))[f := changes[f]] == values + (changes - (todo - {f}))
  {
  }

  lemma PickOneMore(fields: seq<Field>, f: Field)
    ensures Picks(fields + [f]) == Picks(fields) + if Syncable(f) then {f} else {}
    ensures WantsPrice(fields + [f]) == (WantsPrice(fields) || f.Price?)
  {
    if WantsPrice(fields) {
      var g :| g in fields && g.Price?;
      assert g in fields + [f];
    }
    assert f in fields + [f];
  }

  lemma AttributeNone(sources: map<Field, Origin>, origin: Origin)
    ensures Attribute(sources, {}, origin) == sources
  {
  }

  lemma AttributeOneMore(sources: map<Field, Origin>, fields: set<Field>, origin: Origin, f: Field)
    ensures Attribute(sources, fields, origin)[f := origin] == Attribute(sources, fields + {f}, origin)
  {
  }

  lemma RefreshNone(snapshot: map<Field, Value>, meta: map<Field, Value>)
    ensures Refreshed(snapshot, meta, {}) == snapshot
  {
  }

  lemma RefreshOneMore(snapshot: map<Field, Value>, meta: map<Field, Value>, fields: set<Field>, f: Field)
    requires f in meta
    ensures Refreshed(snapshot, meta, fields)[f := meta[f]] == Refreshed(snapshot, meta, fields + {f})
  {
  }

  lemma AdoptNone(values: map<Field, Value>, meta: map<Field, Value>)
    requires Complete(values) && Complete(meta)
    ensures Adopting(values, meta, {}) == values
  {
  }

  lemma AdoptingAt(values: map<Field, Value>, meta: map<Field, Value>, fields: set<Field>, f: Field)
    requires Complete(values) && Complete(meta) && Syncable(f)
    ensures Complete(Adopting(values, meta, fields))
    ensures Adopting(values, meta, fields)[f] == if f in fields then Adopted(values, meta, f) else values[f]
  {
  }

  lemma RefreshedAt(snapshot: map<Field, Value>, meta: map<Field, Value>, fields: set<Field>, f: Field)
    requires Complete(snapshot) && Complete(meta) && Syncable(f)
    ensures Complete(Refreshed(snapshot, meta, fields))
    ensures Refreshed(snapshot, meta, fields)[f] == if f in fields then meta[f] else snapshot[f]
  {
  }

  /** A second look at the old capabilities finds the same markers. */
  lemma AdoptAgain(values: map<Field, Value>, meta: map<Field, Value>, fields: set<Field>, f: Field)
    requires Complete(values) && Complete(meta) && Syncable(f)
    ensures Complete(Adopting(values, meta, fields))
    ensures Adopted(Adopting(values, meta, fields), meta, f) == Adopted(values, meta, f)
  {
    AdoptingAt(values, meta, fields, Capabilities);
    PreserveTwice(CapsOf(meta), CapsOf(values));
  }

  lemma AdoptOneMore(values: map<Field, Value>, meta: map<Field, Value>, fields: set<Field>, f: Field)
    requires Complete(values) && Complete(meta) && Syncable(f)
    ensures var now := Adopting(values, meta, fields);
      && Complete(now)
      && now[f := Adopted(now, meta, f)] == Adopting(values, meta, fields + {f})
      && Complete(Adopting(values, meta, fields + {f}))
  {
    AdoptAgain(values, meta, fields, f);
    AdoptAgain(values, meta, fields + {f}, f);
  }

  /* ---------- Runs ---------- */

  datatype Event =
    | Edit(changes: map<Field, Value>)
    | Adopt(latest: Registry, version: string, fields: seq<Field>)
    | TestPassed
    | SetSupport(available: bool)

  predicate Sensible(e: Event) {
    e.Edit? ==> Typed(e.changes)
  }

  lemma StepKeepsWhole(row: Row, e: Event)
    requires Whole(row) && Sensible(e)
    ensures e.Edit? ==> Whole(Updated(row, e.changes))
    ensures e.Adopt? ==> Whole(AppliedFrom(row, e.latest, e.version, e.fields))
  {
    match e
    case Edit(changes) => UpdateKeepsWhole(row, changes);
    case Adopt(latest, version, fields) =>
      if RegistryKey(row) in latest {
        var entry := latest[RegistryKey(row)];
        MetadataWhole(entry);
        ApplyKeepsWhole(row, MetadataFrom(entry), entry, version, Picks(fields));
      }
    case TestPassed =>
    case SetSupport(_) =>
  }

  function Step(row: Row, e: Event): (next: Row)
    requires Whole(row) && Sensible(e)
    ensures Whole(next) && next.slug == row.slug
  {
    StepKeepsWhole(row, e);
    match e
    case Edit(changes) => Updated(row, changes)
    case Adopt(latest, version, fields) => AppliedFrom(row, latest, version, fields)
    case TestPassed => AfterTestOk(row)
    case SetSupport(available) => Marked(row, if available then ManualOn else ManualOff)
  }

  function Run(row: Row, events: seq<Event>): (last: Row)
    requires Whole(row) && forall e | e in events :: Sensible(e)
    ensures Whole(last) && last.slug == row.slug
  {
    if events == [] then row
    else Step(Run(row, events[..|events| - 1]), events[|events| - 1])
  }

  /** The capabilities are those of the snapshot, followed by responses markers. */
  predicate OnlyMarkersAdded(caps: seq<string>, snapshot: seq<string>) {
    snapshot <= caps && AllMarkers(caps[|snapshot|..])
  }

  predicate Agrees(values: map<Field, Value>, snapshot: map<Field, Value>, f: Field)
    requires Complete(values) && Complete(snapshot) && Syncable(f)
  {
    if f == Capabilities then OnlyMarkersAdded(CapsOf(values), CapsOf(snapshot)) else values[f] == snapshot[f]
  }

  /** Every syncable field that is not manual still is what the snapshot says; the
      capabilities are, but for the responses markers. */
  ghost predicate Faithful(row: Row)
    requires Whole(row)
  {
    row.sync.Some? ==>
      forall f | Syncable(f) && row.sync.value.sources[f] != Manual ::
        Agrees(row.values, row.sync.value.snapshot, f)
  }

  lemma UpdateKeepsWhole(row: Row, changes: map<Field, Value>)
    requires Whole(row) && Typed(changes)
    ensures Whole(Updated(row, changes))
  {
  }

  lemma ApplyKeepsWhole(row: Row, meta: map<Field, Value>, entry: Entry, version: string, fields: set<Field>)
    requires Whole(row) && Described(meta)
    ensures Whole(Applied(row, meta, entry, version, fields))
  {
    AdoptingAt(row.values, meta, fields, Capabilities);
    if row.sync.Some? {
      RefreshedAt(row.sync.value.snapshot, meta, fields, Capabilities);
    }
  }

  lemma CreatedFaithful(
      slug: string, values: map<Field, Value>, baseKey: Option<string>, bundled: Registry, version: string)
    requires Complete(values)
    ensures Whole(Created(slug, values, baseKey, bundled, version))
    ensures Faithful(Created(slug, values, baseKey, bundled, version))
  {
    var key := KeyAtCreation(slug, baseKey, bundled);
    if key.Some? && key.value in bundled {
      MetadataWhole(bundled[key.value]);
      var matched := if Borrows(slug, baseKey) then Borrowed else Litellm;
      MatchedAgree(values, MetadataFrom(bundled[key.value]), matched);
    }
  }

  lemma MatchedAgree(values: map<Field, Value>, meta: map<Field, Value>, matched: Origin)
    requires Complete(values) && Complete(meta)
    ensures forall f | Syncable(f) :: f in SourcesAtCreation(values, meta, matched)
    ensures forall f | Syncable(f) && SourcesAtCreation(values, meta, matched)[f] != Manual :: Agrees(values, meta, f)
  {
    forall f | Syncable(f) ensures f in SYNCABLE_FIELDS {
      SyncableFields(f);
    }
  }

  lemma MarkKeepsFaithful(row: Row, m: Marking)
    requires Whole(row) && Faithful(row)
    ensures Faithful(Marked(row, m))
  {
    if row.sync.Some? && row.sync.value.sources[Capabilities] != Manual {
      var caps, snapshot := CapsOf(row.values), CapsOf(row.sync.value.snapshot);
      assert Agrees(row.values, row.sync.value.snapshot, Capabilities);
      assert caps == snapshot + caps[|snapshot|..];
      OnlyMarkersFallOff(snapshot, caps[|snapshot|..]);
      assert Mark(caps, m) == snapshot + MarkersOf(m);
      assert AllMarkers(MarkersOf(m));
    }
  }

  lemma ApplyKeepsFaithful(row: Row, meta: map<Field, Value>, entry: Entry, version: string, fields: set<Field>)
    requires Whole(row) && Faithful(row) && Described(meta) && forall f | f in fields :: Syncable(f)
    ensures Whole(Applied(row, meta, entry, version, fields)) && Faithful(Applied(row, meta, entry, version, fields))
  {
    ApplyKeepsWhole(row, meta, entry, version, fields);
    var after := Applied(row, meta, entry, version, fields);
    if row.sync.Some? && fields != {} {
      forall f | Syncable(f) && after.sync.value.sources[f] != Manual
        ensures Agrees(after.values, after.sync.value.snapshot, f)
      {
        AdoptingAt(row.values, meta, fields, f);
        RefreshedAt(row.sync.value.snapshot, meta, fields, f);
        if f in fields {
          AdoptedAgrees(CapsOf(meta), CapsOf(row.values));
        } else {
          assert row.sync.value.sources[f] != Manual;
        }
      }
    } else {
      AdoptNone(row.values, meta);
    }
  }

  lemma AdoptedAgrees(latest: seq<string>, caps: seq<string>)
    requires Clean(latest)
    ensures OnlyMarkersAdded(PreserveInto(latest, caps), latest)
  {
    NothingToDrop(latest);
    CarriedMembers(ALL_MARKERS, caps);
    assert PreserveInto(latest, caps) == latest + Carried(ALL_MARKERS, caps);
    assert (latest + Carried(ALL_MARKERS, caps))[|latest|..] == Carried(ALL_MARKERS, caps);
  }

  lemma StepKeepsFaithful(row: Row, e: Event)
    requires Whole(row) && Faithful(row) && Sensible(e)
    ensures Faithful(Step(row, e))
  {
    match e
    case Edit(changes) => UpdateKeepsFaithful(row, changes);
    case Adopt(latest, version, fields) =>
      if RegistryKey(row) in latest {
        var entry := latest[RegistryKey(row)];
        MetadataWhole(entry);
        ApplyKeepsFaithful(row, MetadataFrom(entry), entry, version, Picks(fields));
      }
    case TestPassed => MarkKeepsFaithful(row, TestedOk);
    case SetSupport(available) => MarkKeepsFaithful(row, if available then ManualOn else ManualOff);
  }

  lemma UpdateKeepsFaithful(row: Row, changes: map<Field, Value>)
    requires Whole(row) && Faithful(row) && Typed(changes)
    ensures Whole(Updated(row, changes)) && Faithful(Updated(row, changes))
  {
    UpdateKeepsWhole(row, changes);
    if row.sync.Some? {
      var after := Updated(row, changes);
      forall f | Syncable(f) && after.sync.value.sources[f] != Manual
        ensures Agrees(after.values, after.sync.value.snapshot, f)
      {
        assert f !in changes && row.sync.value.sources[f] != Manual;
      }
    }
  }

  /** So it is in every state that the handlers can bring about. */
  lemma {:induction false} RunIsFaithful(
      slug: string, values: map<Field, Value>, baseKey: Option<string>, bundled: Registry, version: string,
      events: seq<Event>)
    requires Complete(values) && forall e | e in events :: Sensible(e)
    ensures Whole(Created(slug, values, baseKey, bundled, version))
    ensures Faithful(Run(Created(slug, values, baseKey, bundled, version), events))
  {
    CreatedFaithful(slug, values, baseKey, bundled, version);
    if events == [] {
    } else {
      RunIsFaithful(slug, values, baseKey, bundled, version, events[..|events| - 1]);
      StepKeepsFaithful(
        Run(Created(slug, values, baseKey, bundled, version), events[..|events| - 1]), events[|events| - 1]);
    }
  }

  /* ---------- What the check then means ---------- */

  predicate HasMarker(row: Row)
    requires Complete(row.values)
  {
    exists c :: c in CapsOf(row.values) && IsMarker(c)
  }

  /** For a field that is not manual the check reports a change exactly if the registry
      has moved away from the snapshot, or if the field is the capabilities and these
      carry a responses marker. */
  lemma CheckShowsDrift(row: Row, meta: map<Field, Value>, f: Field)
    requires Whole(row) && Faithful(row) && Described(meta)
    requires row.sync.Some? && Syncable(f) && row.sync.value.sources[f] != Manual
    ensures DiffOf(row, meta, f).changed <==>
      meta[f] != row.sync.value.snapshot[f] || (f == Capabilities && HasMarker(row))
  {
    assert Agrees(row.values, row.sync.value.snapshot, f);
    if f == Capabilities {
      var caps, snapshot := CapsOf(row.values), CapsOf(row.sync.value.snapshot);
      assert caps == snapshot + caps[|snapshot|..];
      if caps[|snapshot|..] == [] {
        assert caps == snapshot;
      } else {
        assert caps[|snapshot|] == caps[|snapshot|..][0];
        assert caps[|snapshot|] in caps && IsMarker(caps[|snapshot|]);
      }
    }
  }

  /** Capabilities just adopted are the registry's exactly if there was no marker. */
  lemma AdoptedCapsChanged(latest: seq<string>, caps: seq<string>)
    requires Clean(latest)
    ensures PreserveInto(latest, caps) != latest <==> exists c :: c in caps && IsMarker(c)
  {
    NothingToDrop(latest);
    CarriedMembers(ALL_MARKERS, caps);
    var carried := Carried(ALL_MARKERS, caps);
    if carried == [] {
      assert latest + [] == latest;
    } else {
      assert carried[0] in carried && carried[0] in latest + carried;
    }
  }

  /** One field through an apply. */
  lemma ApplySettles(row: Row, meta: map<Field, Value>, entry: Entry, version: string, fields: seq<Field>, f: Field)
    requires Whole(row) && Described(meta) && Syncable(f)
    ensures var after := Applied(row, meta, entry, version, Picks(fields));
      && Whole(after) && RegistryKey(after) == RegistryKey(row)
      && (f in fields ==> (DiffOf(after, meta, f).changed <==> f == Capabilities && HasMarker(row)))
      && (f !in fields ==> DiffOf(after, meta, f) == DiffOf(row, meta, f))
      && (row.sync.Some? && f !in fields ==> after.sync.value.snapshot[f] == row.sync.value.snapshot[f])
  {
    ApplyKeepsWhole(row, meta, entry, version, Picks(fields));
    AdoptingAt(row.values, meta, Picks(fields), f);
    AdoptedCapsChanged(CapsOf(meta), CapsOf(row.values));
    assert f in Picks(fields) <==> f in fields;
    if row.sync.Some? {
      RefreshedAt(row.sync.value.snapshot, meta, Picks(fields), f);
    }
  }

  /** After an apply, a check against the same registry reports no change for the applied
      fields, except for the capabilities of a row with a responses marker; what was not
      selected is untouched, and shows in the check as before. */
  lemma CheckAfterApply(row: Row, latest: Registry, version: string, fields: seq<Field>, i: nat)
    requires Whole(row) && RegistryKey(row) in latest && i < |SYNCABLE_FIELDS|
    ensures var applied := AppliedFrom(row, latest, version, fields);
      && Complete(applied.values)
      && var f, before, after := SYNCABLE_FIELDS[i], Checked(row, latest), Checked(applied, latest);
      && |before| == |after| == |SYNCABLE_FIELDS|
      && after[i].field == before[i].field == f
      && (f in fields ==> (after[i].changed <==> f == Capabilities && HasMarker(row)))
      && (f !in fields ==> after[i] == before[i] && applied.values[f] == row.values[f])
  {
    var entry := latest[RegistryKey(row)];
    MetadataWhole(entry);
    AllSyncable();
    ApplySettles(row, MetadataFrom(entry), entry, version, fields, SYNCABLE_FIELDS[i]);
    AdoptingAt(row.values, MetadataFrom(entry), Picks(fields), SYNCABLE_FIELDS[i]);
  }

  /** For a model that an admin has marked, checking never settles: the registry's
      capabilities are applied, and the next check against the same registry reports
      them as changed again. */
  lemma MarkedNeverSettles(row: Row, available: bool, meta: map<Field, Value>, entry: Entry, version: string)
    requires Whole(row) && Described(meta)
    ensures var marked := Marked(row, if available then ManualOn else ManualOff);
      var after := Applied(marked, meta, entry, version, Picks([Capabilities]));
      Complete(after.values) && DiffOf(after, meta, Capabilities).changed
  {
    var m := if available then ManualOn else ManualOff;
    var marked := Marked(row, m);
    assert MarkersOf(m)[1] == RESPONSES_MANUAL && ALL_MARKERS[3] == RESPONSES_MANUAL;
    assert RESPONSES_MANUAL in CapsOf(marked.values) && IsMarker(RESPONSES_MANUAL);
    ApplySettles(marked, meta, entry, version, [Capabilities], Capabilities);
  }

  /** Applying the same again changes nothing. */
  lemma ApplyTwice(row: Row, meta: map<Field, Value>, entry: Entry, version: string, fields: set<Field>)
    requires Whole(row) && Described(meta)
    ensures var once := Applied(row, meta, entry, version, fields);
      Complete(once.values) && Applied(once, meta, entry, version, fields) == once
  {
    var values := Adopting(row.values, meta, fields);
    forall f | Syncable(f) ensures Complete(values) && Adopted(values, meta, f) == Adopted(row.values, meta, f) {
      AdoptAgain(row.values, meta, fields, f);
    }
    AdoptAgain(row.values, meta, fields, Capabilities);
    assert Adopting(values, meta, fields) == values;
    if row.sync.Some? {
      AttributeTwice(row.sync.value.sources, fields);
      RefreshTwice(row.sync.value.snapshot, meta, fields);
    }
  }

  lemma AttributeTwice(sources: map<Field, Origin>, fields: set<Field>)
    ensures var once := Attribute(sources, fields, Litellm); Attribute(once, fields, Litellm) == once
  {
  }

  lemma RefreshTwice(snapshot: map<Field, Value>, meta: map<Field, Value>, fields: set<Field>)
    ensures var once := Refreshed(snapshot, meta, fields); Refreshed(once, meta, fields) == once
  {
  }

  /* ---------- What an apply does to the price ---------- */

  /** No version of the model becomes effective after `at` and by `now`. */
  predicate NoneBetween(rows: seq<Version>, provider: string, model: string, at: Time, now: Time) {
    forall w | w in rows && Pricing.About(w, provider, model) :: w.effectiveFrom <= at || w.effectiveFrom > now
  }

  /** After an apply of the price, a check against the same registry reports no price
      difference, until a later version becomes effective. */
  lemma PriceSettles(
      row: Row, provider: string, latest: Registry, fields: seq<Field>, rows: seq<Version>, at: Time, now: Time)
    requires OneAtATime(rows) && at <= now && WantsPrice(fields)
    requires Answer(row, provider, latest, fields, rows, at).Done?
    requires NoneBetween(rows, provider, Bare(row.slug), at, now)
    ensures var after := rows + NewVersions(provider, row.slug, latest[RegistryKey(row)], fields, at);
      forall d | d in PricesChecked(row, latest, after, provider, now) :: !d.changed
  {
    var quote := PriceFrom(latest[RegistryKey(row)]);
    if quote.Some? {
      var v := Version(provider, Bare(row.slug), Flattened(quote.value), at);
      StillOneAtATime(rows, v);
      NewVersionHolds(rows, v, now);
      DiffsReportColumns(COLUMNS, Some(v.quote), quote);
      FlatteningKeepsColumns(quote.value);
    } else {
      assert rows + [] == rows;
      DiffsReportColumns(COLUMNS, QuoteOf(Current(rows, provider, Bare(row.slug), now)), quote);
    }
  }

  lemma StillOneAtATime(rows: seq<Version>, v: Version)
    requires OneAtATime(rows) && !Taken(rows, v.provider, v.model, v.effectiveFrom)
    ensures OneAtATime(rows + [v])
  {
  }

  lemma FlatteningKeepsColumns(q: Quote)
    ensures forall c: Column :: ColumnOf(Flattened(q), c) == ColumnOf(q, c)
  {
  }

  /** The price now current is billed per unit. */
  predicate PricedPerUnit(rows: seq<Version>, provider: string, model: string, now: Time) {
    var current := Current(rows, provider, model, now);
    current.Some? && current.value.quote.perUnit.Some?
  }

  /** A model that was priced per unit still is after an apply, at any time until a later
      version is effective, if and only if the apply added no version, that is the price
      was not asked for or the registry has none. Otherwise its unit price is gone,
      whatever the registry says, and no check against that registry shows it. */
  lemma UnitPriceSurvives(
      row: Row, provider: string, latest: Registry, fields: seq<Field>, rows: seq<Version>, at: Time, now: Time)
    requires OneAtATime(rows) && Answer(row, provider, latest, fields, rows, at).Done?
    requires PricedPerUnit(rows, provider, Bare(row.slug), at)
    requires at <= now && NoneBetween(rows, provider, Bare(row.slug), at, now)
    ensures var after := rows + NewVersions(provider, row.slug, latest[RegistryKey(row)], fields, at);
      && (PricedPerUnit(after, provider, Bare(row.slug), now) <==>
            !WantsPrice(fields) || PriceFrom(latest[RegistryKey(row)]).None?)
      && (!PricedPerUnit(after, provider, Bare(row.slug), now) ==>
            forall d | d in PricesChecked(row, latest, after, provider, now) :: !d.changed)
  {
    var quote := PriceFrom(latest[RegistryKey(row)]);
    if WantsPrice(fields) && quote.Some? {
      var v := Version(provider, Bare(row.slug), Flattened(quote.value), at);
      StillOneAtATime(rows, v);
      NewVersionHolds(rows, v, now);
      PriceSettles(row, provider, latest, fields, rows, at, now);
    } else {
      assert rows + [] == rows;
      CurrentLasts(rows, provider, Bare(row.slug), at, now);
    }
  }

  /** What a realtime session captures of the version current when it connects. */
  function RealtimePrice(v: Option<Version>): Option<M.Price> {
    if v.Some? then Some(M.Price(v.value.quote.unit, v.value.quote.perUnit)) else None
  }

  /** Once an apply has added a version, and until a later one is effective, realtime
      audio costs nothing, however much it is: no session that starts then is charged,
      and none meets a cost cap. */
  lemma AppliedPriceIsFree(
      row: Row, provider: string, latest: Registry, fields: seq<Field>, rows: seq<Version>, at: Time, now: Time,
      meter: M.Meter)
    requires OneAtATime(rows) && Answer(row, provider, latest, fields, rows, at).Done?
    requires WantsPrice(fields) && PriceFrom(latest[RegistryKey(row)]).Some?
    requires at <= now && NoneBetween(rows, provider, Bare(row.slug), at, now)
    ensures var after := rows + NewVersions(provider, row.slug, latest[RegistryKey(row)], fields, at);
      M.RunningCost(meter, RealtimePrice(Current(after, provider, Bare(row.slug), now))) == 0.0
  {
    var v := Version(provider, Bare(row.slug), Flattened(PriceFrom(latest[RegistryKey(row)]).value), at);
    StillOneAtATime(rows, v);
    NewVersionHolds(rows, v, now);
  }

  /** A call is billed by the version that is current when it starts; an apply changes
      that for no call that started before it. */
  lemma ApplyKeepsPastPrices(
      row: Row, provider: string, entry: Entry, fields: seq<Field>, rows: seq<Version>, at: Time,
      p: string, model: string, callTime: Time)
    requires callTime < at
    ensures Current(rows + NewVersions(provider, row.slug, entry, fields, at), p, model, callTime) ==
      Current(rows, p, model, callTime)
  {
    if WantsPrice(fields) && PriceFrom(entry).Some? {
      PastPricesKept(
        rows, Version(provider, Bare(row.slug), Flattened(PriceFrom(entry).value), at), p, model, callTime);
    } else {
      assert rows + [] == rows;
    }
  }

  /* ---------- The responses support through a run ---------- */

  function SupportOf(row: Row): Support
    requires Complete(row.values)
  {
    GetSupport(CapsOf(row.values))
  }

  /** An apply never changes the support. */
  lemma ApplyKeepsSupport(row: Row, latest: Registry, version: string, fields: seq<Field>)
    requires Whole(row)
    ensures var after := AppliedFrom(row, latest, version, fields);
      Complete(after.values) && SupportOf(after) == SupportOf(row)
  {
    if RegistryKey(row) in latest {
      var entry := latest[RegistryKey(row)];
      MetadataWhole(entry);
      var meta := MetadataFrom(entry);
      AdoptingAt(row.values, meta, Picks(fields), Capabilities);
      PreserveKeepsSupport(CapsOf(meta), CapsOf(row.values));
    }
  }

  /** Only an admin can lift a block: by allowing the endpoint, or by editing the list. */
  predicate LiftsBlock(e: Event) {
    (e.SetSupport? && e.available) || (e.Edit? && Capabilities in e.changes)
  }

  lemma {:induction false} BlockStays(row: Row, events: seq<Event>)
    requires Whole(row) && SupportOf(row).state == Unavailable
    requires forall e | e in events :: Sensible(e) && !LiftsBlock(e)
    ensures SupportOf(Run(row, events)).state == Unavailable
  {
    if events == [] {
    } else {
      var before, e := Run(row, events[..|events| - 1]), events[|events| - 1];
      BlockStays(row, events[..|events| - 1]);
      assert !LiftsBlock(e);
      match e
      case Edit(changes) =>
      case Adopt(latest, version, fields) => ApplyKeepsSupport(before, latest, version, fields);
      case TestPassed =>
      case SetSupport(_) => MarkDecides(CapsOf(before.values), ManualOff);
    }
  }

  /** The field is marked manual, with this value in the snapshot. */
  ghost predicate ManualWith(row: Row, f: Field, remembered: Value)
    requires Whole(row) && Syncable(f)
  {
    row.sync.Some? && row.sync.value.sources[f] == Manual && row.sync.value.snapshot[f] == remembered
  }

  predicate AppliesField(e: Event, f: Field) {
    e.Adopt? && f in e.fields
  }

  lemma ApplyElsewhere(
      row: Row, meta: map<Field, Value>, entry: Entry, version: string, fields: set<Field>, f: Field, remembered: Value)
    requires Whole(row) && Described(meta) && Syncable(f) && f !in fields && ManualWith(row, f, remembered)
    ensures Whole(Applied(row, meta, entry, version, fields))
    ensures ManualWith(Applied(row, meta, entry, version, fields), f, remembered)
  {
    ApplyKeepsWhole(row, meta, entry, version, fields);
    RefreshedAt(row.sync.value.snapshot, meta, fields, f);
  }

  lemma StepKeepsManual(row: Row, e: Event, f: Field, remembered: Value)
    requires Whole(row) && Sensible(e) && Syncable(f) && ManualWith(row, f, remembered) && !AppliesField(e, f)
    ensures ManualWith(Step(row, e), f, remembered)
  {
    match e
    case Edit(changes) =>
    case Adopt(latest, version, fields) =>
      if RegistryKey(row) in latest {
        var entry := latest[RegistryKey(row)];
        MetadataWhole(entry);
        ApplyElsewhere(row, MetadataFrom(entry), entry, version, Picks(fields), f, remembered);
      }
    case TestPassed =>
    case SetSupport(_) =>
  }

  /** A field once edited stays manual until it is applied, and its snapshot is kept. */
  lemma {:induction false} ManualStays(row: Row, events: seq<Event>, f: Field, remembered: Value)
    requires Whole(row) && Syncable(f) && ManualWith(row, f, remembered)
    requires forall e | e in events :: Sensible(e) && !AppliesField(e, f)
    ensures ManualWith(Run(row, events), f, remembered)
  {
    if events == [] {
    } else {
      ManualStays(row, events[..|events| - 1], f, remembered);
      assert !AppliesField(events[|events| - 1], f);
      StepKeepsManual(Run(row, events[..|events| - 1]), events[|events| - 1], f, remembered);
    }
  }

  /* ---------- What each handler records, field by field ---------- */

  /** A new model follows the entry of the key given, or else of its slug, if the registry
      has that one. A field that differs from the entry is manual; of the others the
      source is the registry, or a borrowed entry if the key given is not the slug. */
  lemma CreationRecords(
      slug: string, values: map<Field, Value>, baseKey: Option<string>, bundled: Registry, version: string, f: Field)
    requires Complete(values) && Syncable(f)
    ensures var given := baseKey.Some? && baseKey.value != "";
      var key := if given then baseKey.value else slug;
      var row := Created(slug, values, baseKey, bundled, version);
      && row.slug == slug && row.values == values && (row.sync.Some? <==> key in bundled)
      && (row.sync.Some? ==>
            var sync, latest := row.sync.value, MetadataFrom(bundled[key]);
            && sync.baseKey == key && sync.version == version && sync.raw == bundled[key] && sync.snapshot == latest
            && f in sync.sources && f in latest
            && (sync.sources[f] == Manual <==> values[f] != latest[f])
            && (sync.sources[f] == Borrowed <==> values[f] == latest[f] && given && key != slug))
  {
    CreatedFaithful(slug, values, baseKey, bundled, version);
    SyncableFields(f);
  }

  /** An edit stores the changes and nothing else; of the syncable fields the changed ones
      become manual. */
  lemma EditRecords(row: Row, changes: map<Field, Value>, f: Field)
    requires Whole(row) && Typed(changes)
    ensures var after := Step(row, Edit(changes));
      && (f in after.values <==> f in row.values || f in changes)
      && (f in after.values ==> after.values[f] == if f in changes then changes[f] else row.values[f])
      && (after.sync.Some? <==> row.sync.Some?)
      && (row.sync.Some? ==>
            && after.sync.value == row.sync.value.(sources := after.sync.value.sources)
            && (Syncable(f) ==>
                  after.sync.value.sources[f] == if f in changes then Manual else row.sync.value.sources[f]))
  {
  }

  /** An apply gives the selected syncable fields the value of the entry that the row
      follows; all else stays, and a row that follows no entry stays so. */
  lemma ApplyStores(row: Row, latest: Registry, version: string, fields: seq<Field>, f: Field)
    requires Whole(row) && RegistryKey(row) in latest
    ensures var entry, after := latest[RegistryKey(row)], Step(row, Adopt(latest, version, fields));
      && (f in after.values <==> f in row.values)
      && (f in row.values && !(Syncable(f) && f in fields) ==> after.values[f] == row.values[f])
      && (Syncable(f) && f in fields && f != Capabilities ==> after.values[f] == MetadataFrom(entry)[f])
      && (after.sync.Some? <==> row.sync.Some?)
  {
    var entry := latest[RegistryKey(row)];
    MetadataWhole(entry);
    assert f in Picks(fields) <==> f in fields && Syncable(f);
    if Syncable(f) {
      AdoptingAt(row.values, MetadataFrom(entry), Picks(fields), f);
    }
  }

  /** It records the registry as their source, the entry's value as their snapshot, the
      version and the entry; the other fields keep their source and their snapshot. */
  lemma ApplyRecords(row: Row, latest: Registry, version: string, fields: seq<Field>, f: Field)
    requires Whole(row) && RegistryKey(row) in latest && Syncable(f) && row.sync.Some?
    ensures var entry, after := latest[RegistryKey(row)], Step(row, Adopt(latest, version, fields));
      && after.sync.Some?
      && var before, now := row.sync.value, after.sync.value;
      && now.baseKey == before.baseKey
      && (f in fields ==>
            && now.sources[f] == Litellm && now.snapshot[f] == MetadataFrom(entry)[f]
            && now.version == version && now.raw == entry)
      && (f !in fields ==> now.sources[f] == before.sources[f] && now.snapshot[f] == before.snapshot[f])
  {
    var entry := latest[RegistryKey(row)];
    MetadataWhole(entry);
    assert f in Picks(fields) <==> f in fields;
    RecordedAt(row, MetadataFrom(entry), entry, version, Picks(fields), f);
  }

  lemma RecordedAt(
      row: Row, meta: map<Field, Value>, entry: Entry, version: string, fields: set<Field>, f: Field)
    requires Whole(row) && Described(meta) && Syncable(f) && row.sync.Some?
    ensures var after := Applied(row, meta, entry, version, fields).sync;
      && after.Some? && after.value.baseKey == row.sync.value.baseKey
      && f in after.value.sources && f in after.value.snapshot
      && (f in fields ==>
            && after.value.sources[f] == Litellm && after.value.snapshot[f] == meta[f]
            && after.value.version == version && after.value.raw == entry)
      && (f !in fields ==>
            && after.value.sources[f] == row.sync.value.sources[f]
            && after.value.snapshot[f] == row.sync.value.snapshot[f])
  {
    RefreshedAt(row.sync.value.snapshot, meta, fields, f);
  }

  /** Of the capabilities an apply takes all of the entry's, and keeps the responses
      markers that were there. */
  lemma ApplyMergesCapabilities(row: Row, latest: Registry, version: string, fields: seq<Field>, c: string)
    requires Whole(row) && RegistryKey(row) in latest && Capabilities in fields
    ensures var after := Step(row, Adopt(latest, version, fields));
      c in CapsOf(after.values) <==>
        if c in ["responses", "responses:blocked", "responses:tested", "responses:manual"]
        then c in CapsOf(row.values) else c in CapabilitiesOf(latest[RegistryKey(row)])
  {
    var entry := latest[RegistryKey(row)];
    MetadataWhole(entry);
    assert Capabilities in Picks(fields);
    AdoptingAt(row.values, MetadataFrom(entry), Picks(fields), Capabilities);
    PreserveMembers(CapabilitiesOf(entry), CapsOf(row.values));
  }

  /** An apply of nothing syncable, or to a model that the registry does not know, leaves
      the row. */
  lemma ApplyOfNothing(row: Row, latest: Registry, version: string, fields: seq<Field>)
    requires Whole(row) && (RegistryKey(row) !in latest || forall f | f in fields :: !Syncable(f))
    ensures Step(row, Adopt(latest, version, fields)) == row
  {
    if RegistryKey(row) in latest {
      var entry := latest[RegistryKey(row)];
      MetadataWhole(entry);
      assert Picks(fields) == {};
      AdoptNone(row.values, MetadataFrom(entry));
    }
  }

  /** A row follows the key recorded, or else its slug. */
  lemma FollowedKey(row: Row)
    ensures row.sync.None? ==> RegistryKey(row) == row.slug
    ensures row.sync.Some? ==>
      RegistryKey(row) == if row.sync.value.baseKey == "" then row.slug else row.sync.value.baseKey
  {
  }

  /** When an apply is refused: the registry does not know the model, or a price was asked
      for, is there, and is negative or the second of that moment. */
  lemma RefusedExactly(
      row: Row, provider: string, latest: Registry, fields: seq<Field>, rows: seq<Version>, now: Time)
    ensures var reply := Answer(row, provider, latest, fields, rows, now);
      && (reply.ModelNotFound? <==> RegistryKey(row) !in latest)
      && (reply.PriceRefused? <==>
            && RegistryKey(row) in latest && (exists f :: f in fields && f.Price?)
            && var e := latest[RegistryKey(row)];
               && PriceFrom(e).Some?
               && (|| (e.inputPerToken.Some?
                       && (e.inputPerToken.value < 0.0 || Or(e.outputPerToken, 0.0) < 0.0
                           || Or(e.cacheReadPerToken, 0.0) < 0.0))
                   || exists v :: v in rows && v.provider == provider && v.model == Bare(row.slug)
                                  && v.effectiveFrom == now))
  {
    if RegistryKey(row) in latest && PriceFrom(latest[RegistryKey(row)]).Some? {
      var q := Flattened(PriceFrom(latest[RegistryKey(row)]).value);
      FilingRefused(rows, q, provider, Bare(row.slug), now);
      ThousandfoldSign(latest[RegistryKey(row)]);
    }
  }

  lemma ThousandfoldSign(e: Entry)
    requires PriceFrom(e).Some?
    ensures var q := PriceFrom(e).value;
      (q.inputPer1k < 0.0 || q.outputPer1k < 0.0 || (q.cachedInputPer1k.Some? && q.cachedInputPer1k.value < 0.0)) <==>
        e.inputPerToken.Some?
        && (e.inputPerToken.value < 0.0 || Or(e.outputPerToken, 0.0) < 0.0 || Or(e.cacheReadPerToken, 0.0) < 0.0)
  {
  }

  /** The check has a line for each syncable field, in this order, with the row's value,
      the entry's, and where the row's comes from; nothing on a model it does not know. */
  lemma CheckSays(row: Row, latest: Registry, i: nat)
    requires Whole(row) && i < 4
    ensures var diffs := Checked(row, latest);
      if RegistryKey(row) !in latest then diffs == []
      else
        var f := [ContextWindow, ModalityInput, ModalityOutput, Capabilities][i];
        var now := MetadataFrom(latest[RegistryKey(row)])[f];
        && |diffs| == 4 && diffs[i].field == f
        && diffs[i].current == row.values[f] && diffs[i].latest == now
        && (diffs[i].changed <==> row.values[f] != now)
        && diffs[i].source == if row.sync.Some? then row.sync.value.sources[f] else Manual
  {
    AllSyncable();
  }

  /** Only the capabilities differ, and of these only the markers. */
  ghost predicate MarkersOnly(before: Row, after: Row)
    requires Whole(before) && Whole(after)
  {
    && after == before.(values := before.values[Capabilities := after.values[Capabilities]])
    && forall c | !IsMarker(c) :: c in CapsOf(after.values) <==> c in CapsOf(before.values)
  }

  /** A test that passed marks the model as tested, unless an admin has blocked it ... */
  lemma TestRecorded(row: Row)
    requires Whole(row)
    ensures SupportOf(row).state == Unavailable ==> Step(row, TestPassed) == row
    ensures SupportOf(row).state != Unavailable ==>
      SupportOf(Step(row, TestPassed)) == Support(Available, Some(Tested)) && MarkersOnly(row, Step(row, TestPassed))
  {
    MarkDecides(CapsOf(row.values), TestedOk);
  }

  /** ... while an admin's word holds at once. */
  lemma WordRecorded(row: Row, available: bool)
    requires Whole(row)
    ensures var after := Step(row, SetSupport(available));
      && SupportOf(after) == Support(if available then Available else Unavailable, Some(ByHand))
      && MarkersOnly(row, after)
  {
    MarkDecides(CapsOf(row.values), if available then ManualOn else ManualOff);
  }

  /** A run takes its events one after the other. */
  lemma RunSteps(row: Row, events: seq<Event>, e: Event)
    requires Whole(row) && Sensible(e) && forall d | d in events :: Sensible(d)
    ensures Run(row, []) == row && Run(row, events + [e]) == Step(Run(row, events), e)
  {
    assert (events + [e])[..|events|] == events;
  }

  /** Once an apply has filed a price per token, and until a later version is effective,
      tokens cost what the entry says a token costs. */
  lemma AppliedRates(
      row: Row, provider: string, latest: Registry, fields: seq<Field>, rows: seq<Version>, at: Time, now: Time,
      plain: nat, cached: nat, completion: nat)
    requires OneAtATime(rows) && Answer(row, provider, latest, fields, rows, at).Done?
    requires WantsPrice(fields) && latest[RegistryKey(row)].inputPerToken.Some?
    requires at <= now && NoneBetween(rows, provider, Bare(row.slug), at, now)
    ensures var e := latest[RegistryKey(row)];
      var after := rows + NewVersions(provider, row.slug, e, fields, at);
      var price := QuoteOf(Current(after, provider, Bare(row.slug), now));
      var cost := CalculateCost(price, Some(plain + cached), Some(completion), Some(cached));
      cost.Some? && cost.value ==
        plain as real * e.inputPerToken.value
        + cached as real * Or(e.cacheReadPerToken, e.inputPerToken.value)
        + completion as real * Or(e.outputPerToken, 0.0)
  {
    var e := latest[RegistryKey(row)];
    var v := Version(provider, Bare(row.slug), Flattened(PriceFrom(e).value), at);
    StillOneAtATime(rows, v);
    NewVersionHolds(rows, v, now);
    QuoteIsPerToken(e, plain, cached, completion);
    assert v.quote == PriceFrom(e).value;
  }

  /** ... and if it has filed the registry's price per unit, tokens cost nothing. */
  lemma AppliedUnitIsFree(
      row: Row, provider: string, latest: Registry, fields: seq<Field>, rows: seq<Version>, at: Time, now: Time,
      prompt: nat, cached: nat, completion: nat)
    requires OneAtATime(rows) && Answer(row, provider, latest, fields, rows, at).Done?
    requires WantsPrice(fields) && PriceFrom(latest[RegistryKey(row)]).Some?
    requires latest[RegistryKey(row)].inputPerToken.None?
    requires at <= now && NoneBetween(rows, provider, Bare(row.slug), at, now)
    ensures var e := latest[RegistryKey(row)];
      var after := rows + NewVersions(provider, row.slug, e, fields, at);
      var price := QuoteOf(Current(after, provider, Bare(row.slug), now));
      var cost := CalculateCost(price, Some(prompt), Some(completion), Some(cached));
      cost.Some? && cost.value == 0.0
  {
    var v := Version(
      provider, Bare(row.slug), Flattened(PriceFrom(latest[RegistryKey(row)]).value), at);
    StillOneAtATime(rows, v);
    NewVersionHolds(rows, v, now);
  }
}

/**
 * The quality options of `POST /download`: which of the three upstream
 * media fields become entries of the `qualities` object, with what URL,
 * label and tier, and which key is the default.
 *
 * A JavaScript object keeps its string keys in insertion order, and the
 * browser script reads that order (`Object.keys(...)[0]`), so the object is
 * an ordered list of entries with distinct keys.
 */
module Qualities {
  import opened Js
  import opened Urls
  import opened Upstream

  /** The three upstream fields, in the order the server scans them. */
  datatype QualityKey = Nwmplay | Hdplay | Play

  /** The position of a key in the priority order nwmplay > hdplay > play. */
  function Rank(k: QualityKey): nat {
    match k
    case Nwmplay => 0
    case Hdplay => 1
    case Play => 2
  }

  /** The key's name, as object key and as the `defaultQuality` value. */
  function KeyName(k: QualityKey): string {
    match k
    case Nwmplay => "nwmplay"
    case Hdplay => "hdplay"
    case Play => "play"
  }

  /** The human-readable label the server attaches to each key. */
  function Label(k: QualityKey): string {
    match k
    case Nwmplay => "Filigransız (Standart Kalite)"
    case Hdplay => "HD Kalite (Filigransız)"
    case Play => "Standart Kalite (Filigransız)"
  }

  /** The `quality` tier of each key. */
  function Tier(k: QualityKey): string {
    match k
    case Nwmplay => "standart"
    case Hdplay => "hd"
    case Play => "standart"
  }

  /** The upstream field a key is read from. */
  function Field(d: VideoData, k: QualityKey): Option<string> {
    match k
    case Nwmplay => d.nwmplay
    case Hdplay => d.hdplay
    case Play => d.play
  }

  /** `{ url, label, quality }` (the `label` property is `labelText` here). */
  datatype QualityOption = QualityOption(url: string, labelText: string, quality: string)

  /** One property of the `qualities` object. */
  datatype Entry = Entry(key: QualityKey, option: QualityOption)

  /** `Object.keys(t)`. */
  function Keys(t: seq<Entry>): seq<QualityKey> {
    seq(|t|, i requires 0 <= i < |t| => t[i].key)
  }

  /** `t[k]`: the option stored under `k`, `None` for `undefined`. */
  function Lookup(t: seq<Entry>, k: QualityKey): Option<QualityOption>
    decreases |t|
  {
    if t == [] then None
    else if t[0].key == k then Some(t[0].option)
    else Lookup(t[1..], k)
  }

  /** `t[k] = o`: overwrites the property in place when it exists, else adds it at the end. */
  function Assign(t: seq<Entry>, k: QualityKey, o: QualityOption): seq<Entry>
    decreases |t|
  {
    if t == [] then [Entry(k, o)]
    else if t[0].key == k then [Entry(k, o)] + t[1..]
    else [t[0]] + Assign(t[1..], k, o)
  }

  /** Assigning a key the object does not have yet appends it. */
  lemma {:induction false} AssignNewKey(t: seq<Entry>, k: QualityKey, o: QualityOption)
    requires k !in Keys(t)
    ensures Assign(t, k, o) == t + [Entry(k, o)]
    decreases |t|
  {
    if t != [] {
      assert t[0].key == Keys(t)[0];
      assert forall i :: 0 <= i < |t| - 1 ==> Keys(t[1..])[i] == Keys(t)[i + 1];
      AssignNewKey(t[1..], k, o);
      assert t == [t[0]] + t[1..];
    }
  }

  /** The option the server builds for key `k` from the raw upstream URL. */
  function OptionFor(k: QualityKey, raw: string): QualityOption {
    QualityOption(NormalizeUrl(raw), Label(k), Tier(k))
  }

  /** The entry for `k` when its field is truthy, else nothing. */
  function EntryFor(d: VideoData, k: QualityKey): seq<Entry> {
    if Truthy(Field(d, k)) then [Entry(k, OptionFor(k, Field(d, k).value))] else []
  }

  /** The `qualityOptions` object built from an upstream payload. */
  function QualityTable(d: VideoData): seq<Entry> {
    EntryFor(d, Nwmplay) + EntryFor(d, Hdplay) + EntryFor(d, Play)
  }

  /** The keys of an entry list for one key are that key, once when its field is truthy. */
  lemma EntryForKeys(d: VideoData, k: QualityKey)
    ensures Keys(EntryFor(d, k)) == if Truthy(Field(d, k)) then [k] else []
  {
  }

  /** `Object.keys` of a concatenation is the concatenation of the keys. */
  lemma KeysAppend(t: seq<Entry>, u: seq<Entry>)
    ensures Keys(t + u) == Keys(t) + Keys(u)
  {
  }

  /** `Object.keys(qualityOptions)`: the truthy keys, in priority order. */
  lemma QualityTableKeyList(d: VideoData)
    ensures Keys(QualityTable(d))
            == (if Truthy(d.nwmplay) then [Nwmplay] else [])
             + (if Truthy(d.hdplay) then [Hdplay] else [])
             + (if Truthy(d.play) then [Play] else [])
  {
    EntryForKeys(d, Nwmplay);
    EntryForKeys(d, Hdplay);
    EntryForKeys(d, Play);
    KeysAppend(EntryFor(d, Nwmplay), EntryFor(d, Hdplay));
    KeysAppend(EntryFor(d, Nwmplay) + EntryFor(d, Hdplay), EntryFor(d, Play));
  }

  /**
   * One conditional assignment of the handler: when `k` is not yet a key,
   * assigning its option if the field is truthy appends exactly the entry
   * list for `k`.
   */
  lemma AssignStep(t: seq<Entry>, d: VideoData, k: QualityKey)
    requires k !in Keys(t) && Truthy(Field(d, k))
    ensures Assign(t, k, OptionFor(k, Field(d, k).value)) == t + EntryFor(d, k)
  {
    AssignNewKey(t, k, OptionFor(k, Field(d, k).value));
  }

  /**
   * Builds `qualityOptions` as the handler does: an empty object and one
   * conditional assignment per upstream field, in priority order.
   */
  method CollectQualityOptions(d: VideoData) returns (t: seq<Entry>)
    ensures t == QualityTable(d)
  {
    t := [];
    if Truthy(d.nwmplay) {
      AssignStep(t, d, Nwmplay);
      t := Assign(t, Nwmplay, OptionFor(Nwmplay, d.nwmplay.value));
    }
    ghost var t1 := EntryFor(d, Nwmplay);
    assert t == t1;
    EntryForKeys(d, Nwmplay);
    if Truthy(d.hdplay) {
      AssignStep(t, d, Hdplay);
      t := Assign(t, Hdplay, OptionFor(Hdplay, d.hdplay.value));
    }
    ghost var t2 := t1 + EntryFor(d, Hdplay);
    assert t == t2;
    EntryForKeys(d, Hdplay);
    KeysAppend(t1, EntryFor(d, Hdplay));
    if Truthy(d.play) {
      AssignStep(t, d, Play);
      t := Assign(t, Play, OptionFor(Play, d.play.value));
    }
    assert t == t2 + EntryFor(d, Play);
  }

  /** A key is in an order-keeping selection of the three keys exactly when it was selected. */
  lemma SelectionMembers(x: bool, y: bool, z: bool)
    ensures var ks := (if x then [Nwmplay] else []) + (if y then [Hdplay] else []) + (if z then [Play] else []);
            && (Nwmplay in ks <==> x) && (Hdplay in ks <==> y) && (Play in ks <==> z)
  {
  }

  /** The key set of the table is exactly the set of keys whose upstream field is truthy. */
  lemma QualityTableKeys(d: VideoData)
    ensures forall k :: k in Keys(QualityTable(d)) <==> Truthy(Field(d, k))
  {
    QualityTableKeyList(d);
    SelectionMembers(Truthy(d.nwmplay), Truthy(d.hdplay), Truthy(d.play));
    forall k ensures k in Keys(QualityTable(d)) <==> Truthy(Field(d, k)) {
      match k
      case Nwmplay =>
      case Hdplay =>
      case Play =>
    }
  }

  /** An entry built from `d`: its field is truthy and it holds that field's normalised URL, label and tier. */
  predicate BuiltFrom(d: VideoData, e: Entry) {
    Truthy(Field(d, e.key)) && e.option == OptionFor(e.key, Field(d, e.key).value)
  }

  /** Every entry carries the normalised URL of its own upstream field with its key's label and tier. */
  lemma QualityTableBuiltFrom(d: VideoData)
    ensures forall i :: 0 <= i < |QualityTable(d)| ==> BuiltFrom(d, QualityTable(d)[i])
  {
    var a, b, c := EntryFor(d, Nwmplay), EntryFor(d, Hdplay), EntryFor(d, Play);
    assert forall e :: e in a ==> BuiltFrom(d, e);
    assert forall e :: e in b ==> BuiltFrom(d, e);
    assert forall e :: e in c ==> BuiltFrom(d, e);
    assert forall e :: e in QualityTable(d) ==> e in a || e in b || e in c;
  }

  /** Keys in strictly increasing rank: priority order, no key twice. */
  predicate InPriorityOrder(ks: seq<QualityKey>) {
    forall i, j :: 0 <= i < j < |ks| ==> Rank(ks[i]) < Rank(ks[j])
  }

  /** Any selection of the three keys that keeps their order is in priority order. */
  lemma SelectionInPriorityOrder(x: bool, y: bool, z: bool)
    ensures InPriorityOrder((if x then [Nwmplay] else []) + (if y then [Hdplay] else []) + (if z then [Play] else []))
  {
    if x {
      if y {
        if z { assert [Nwmplay] + [Hdplay] + [Play] == [Nwmplay, Hdplay, Play]; }
      }
    }
  }

  /** The entries stand in strict priority order, so no key appears twice. */
  lemma QualityTableOrdered(d: VideoData)
    ensures InPriorityOrder(Keys(QualityTable(d)))
  {
    QualityTableKeyList(d);
    SelectionInPriorityOrder(Truthy(d.nwmplay), Truthy(d.hdplay), Truthy(d.play));
  }

  /** Every option carries the label `standart` except `hdplay`, which carries `hd`. */
  lemma QualityTableTiers(d: VideoData)
    ensures var t := QualityTable(d);
            forall i :: 0 <= i < |t| ==> (t[i].option.quality == "hd" <==> t[i].key == Hdplay)
    ensures var t := QualityTable(d);
            forall i :: 0 <= i < |t| ==> t[i].option.quality in {"standart", "hd"}
  {
    var t := QualityTable(d);
    QualityTableBuiltFrom(d);
    forall i | 0 <= i < |t| ensures t[i].option.quality == Tier(t[i].key) {
      assert BuiltFrom(d, t[i]);
    }
  }

  /** `data.data.nwmplay ? 'nwmplay' : (data.data.hdplay ? 'hdplay' : 'play')`. */
  function DefaultQuality(d: VideoData): QualityKey {
    if Truthy(d.nwmplay) then Nwmplay
    else if Truthy(d.hdplay) then Hdplay
    else Play
  }

  /**
   * The default is the highest-priority key whose field is truthy, whenever
   * there is one.
   */
  lemma DefaultQualityIsFirstPresent(d: VideoData)
    ensures (exists k :: Truthy(Field(d, k))) ==> Truthy(Field(d, DefaultQuality(d)))
    ensures forall k :: Truthy(Field(d, k)) ==> Rank(DefaultQuality(d)) <= Rank(k)
  {
  }

  /**
   * Whenever the table is non-empty the default key heads it, so the lookup
   * `qualityOptions[defaultQuality]` finds that first entry; and the table is
   * non-empty exactly when some field is truthy.
   */
  lemma DefaultInTable(d: VideoData)
    ensures |QualityTable(d)| > 0 <==> exists k :: Truthy(Field(d, k))
    ensures |QualityTable(d)| > 0 ==> QualityTable(d)[0].key == DefaultQuality(d)
    ensures |QualityTable(d)| > 0 ==> Lookup(QualityTable(d), DefaultQuality(d)) == Some(QualityTable(d)[0].option)
  {
    if Truthy(d.nwmplay) {
      assert Truthy(Field(d, Nwmplay));
    } else if Truthy(d.hdplay) {
      assert Truthy(Field(d, Hdplay));
    } else if Truthy(d.play) {
      assert Truthy(Field(d, Play));
    }
  }

  /** On a table in priority order, a lookup finds the entry of that key. */
  lemma {:induction false} LookupAt(t: seq<Entry>, i: nat)
    requires i < |t|
    requires forall a, b :: 0 <= a < b < |t| ==> Rank(t[a].key) < Rank(t[b].key)
    ensures Lookup(t, t[i].key) == Some(t[i].option)
    decreases i
  {
    if i > 0 {
      assert Rank(t[0].key) < Rank(t[i].key);
      LookupAt(t[1..], i - 1);
    }
  }

  /** How many of the three upstream media fields are truthy. */
  function PresentCount(d: VideoData): nat {
    (if Truthy(d.nwmplay) then 1 else 0) + (if Truthy(d.hdplay) then 1 else 0) + (if Truthy(d.play) then 1 else 0)
  }

  /** The table has one entry per truthy field. */
  lemma QualityTableSize(d: VideoData)
    ensures |QualityTable(d)| == PresentCount(d)
  {
    QualityTableKeyList(d);
    assert |Keys(QualityTable(d))| == |QualityTable(d)|;
  }
}

/** Duplicate detection for crawled items: a fingerprint built from the
    configured key fields, the store of fingerprints already seen (with its
    file), and the batch helpers that drop or report duplicates in a list. */
module Dedup {
  import opened Wrappers
  import opened Text
  import opened Values

  /** One key field of an item, normalised: missing or `None` become "", anything
      else is `str(value).strip().lower()`. */
  function NormalizedField(item: Item, field: string): string {
    var v := Get(item, field, Str(""));
    Lower(Strip(if v.Null? then "" else Show(v)))
  }

  function KeyValues(item: Item, keyFields: seq<string>): (r: seq<string>)
    ensures |r| == |keyFields|
  {
    seq(|keyFields|, i requires 0 <= i < |keyFields| => NormalizedField(item, keyFields[i]))
  }

  /** The string that is hashed: the normalised key values joined with "|". */
  function KeyString(item: Item, keyFields: seq<string>): string {
    Join("|", KeyValues(item, keyFields))
  }

  /** `_generate_hash`: the SHA-256 digest, here the uninterpreted `hash`, of the key string. */
  function Fingerprint(keyFields: seq<string>, hash: string -> string, item: Item): string {
    hash(KeyString(item, keyFields))
  }

  /** `_generate_hash` of a store configured with these key fields, as a function value. */
  function FingerprintOf(keyFields: seq<string>, hash: string -> string): Item -> string {
    (item: Item) => Fingerprint(keyFields, hash, item)
  }

  /** The fingerprint reads only the key fields: items that agree on them agree on it. */
  lemma FingerprintOnlyReadsKeyFields(keyFields: seq<string>, hash: string -> string, a: Item, b: Item)
    requires forall f :: f in keyFields ==> Get(a, f, Str("")) == Get(b, f, Str(""))
    ensures Fingerprint(keyFields, hash, a) == Fingerprint(keyFields, hash, b)
  {
    assert KeyValues(a, keyFields) == KeyValues(b, keyFields) by {
      forall i | 0 <= i < |keyFields| ensures KeyValues(a, keyFields)[i] == KeyValues(b, keyFields)[i] {
        assert keyFields[i] in keyFields;
      }
    }
  }

  /** The index of the first `c` in `s`, or `|s|` when there is none. */
  function IndexOf(s: string, c: char): (k: nat)
    ensures k <= |s|
  {
    if s == [] then 0 else if s[0] == c then 0 else 1 + IndexOf(s[1..], c)
  }

  lemma {:induction false} IndexOfSeparator(a: string, c: char, r: string)
    requires c !in a
    ensures IndexOf(a + [c] + r, c) == |a|
    decreases |a|
  {
    if a != [] {
      assert (a + [c] + r)[1..] == a[1..] + [c] + r;
      IndexOfSeparator(a[1..], c, r);
    }
  }

  lemma SplitAtSeparator(a: string, r: string, b: string, s: string, c: char)
    requires c !in a && c !in b
    requires a + [c] + r == b + [c] + s
    ensures a == b && r == s
  {
    var x := a + [c] + r;
    IndexOfSeparator(a, c, r);
    IndexOfSeparator(b, c, s);
    assert a == x[..|a|] == b;
    assert r == x[|a| + 1..] == s;
  }

  /** Joining with a separator that occurs in no part loses nothing. */
  lemma {:induction false} JoinInjective(c: char, xs: seq<string>, ys: seq<string>)
    requires |xs| == |ys|
    requires forall i :: 0 <= i < |xs| ==> c !in xs[i] && c !in ys[i]
    requires Join([c], xs) == Join([c], ys)
    ensures xs == ys
    decreases |xs|
  {
    if |xs| > 1 {
      assert Join([c], xs) == xs[0] + [c] + Join([c], xs[1..]);
      assert Join([c], ys) == ys[0] + [c] + Join([c], ys[1..]);
      SplitAtSeparator(xs[0], Join([c], xs[1..]), ys[0], Join([c], ys[1..]), c);
      JoinInjective(c, xs[1..], ys[1..]);
      assert xs == [xs[0]] + xs[1..] && ys == [ys[0]] + ys[1..];
    }
  }

  /** Two items whose normalised key values differ, none of them containing "|",
      have different key strings, so they can only share a fingerprint through
      a collision of the hash itself. */
  lemma DistinctKeysDistinctKeyStrings(keyFields: seq<string>, a: Item, b: Item)
    requires forall i :: 0 <= i < |keyFields| ==>
      '|' !in KeyValues(a, keyFields)[i] && '|' !in KeyValues(b, keyFields)[i]
    requires KeyValues(a, keyFields) != KeyValues(b, keyFields)
    ensures KeyString(a, keyFields) != KeyString(b, keyFields)
  {
    var xs, ys := KeyValues(a, keyFields), KeyValues(b, keyFields);
    if Join("|", xs) == Join("|", ys) {
      JoinInjective('|', xs, ys);
    }
  }

  /** A key value that itself contains "|" can make two different key tuples
      hash alike: ("x|y", "z") and ("x", "y|z") share the key string "x|y|z". */
  lemma PipeInKeyValueCollides()
    ensures var keys := ["a", "b"];
      var p := map["a" := Str("x|y"), "b" := Str("z")];
      var q := map["a" := Str("x"), "b" := Str("y|z")];
      KeyValues(p, keys) != KeyValues(q, keys) && KeyString(p, keys) == KeyString(q, keys)
  {
    var keys := ["a", "b"];
    var p := map["a" := Str("x|y"), "b" := Str("z")];
    var q := map["a" := Str("x"), "b" := Str("y|z")];
    PlainKeyValue(p, "a", "x|y");
    PlainKeyValue(p, "b", "z");
    PlainKeyValue(q, "a", "x");
    PlainKeyValue(q, "b", "y|z");
    var kp, kq := KeyValues(p, keys), KeyValues(q, keys);
    assert kp[0] == "x|y" && kp[1] == "z";
    assert kq[0] == "x" && kq[1] == "y|z";
    assert kp != kq by { assert kp[1] != kq[1]; }
    assert Join("|", kp) == "x|y" + "|" + "z";
    assert Join("|", kq) == "x" + "|" + "y|z";
  }

  /** A stored string with no surrounding whitespace and no upper-case letter is its own key value. */
  lemma PlainKeyValue(item: Item, field: string, s: string)
    requires field in item && item[field] == Str(s)
    requires s == [] || (!IsSpace(s[0]) && !IsSpace(s[|s| - 1]))
    requires forall i :: 0 <= i < |s| ==> !('A' <= s[i] <= 'Z')
    ensures NormalizedField(item, field) == s
  {
    var v := Get(item, field, Str(""));
    assert v == Str(s) && Show(v) == s;
    TrimStartNoop(s, Blank);
    TrimEndNoop(s, Blank);
    assert Strip(s) == s;
    assert Lower(s) == s;
  }

  /** The dict `mark_as_seen` keeps per fingerprint: each key field with `item.get(field)`. */
  function KeyInfo(item: Item, keyFields: seq<string>): (r: Item)
    ensures r.Keys == set f | f in keyFields
    ensures forall f :: f in r ==> r[f] == Get(item, f, Null)
  {
    map f | f in keyFields :: Get(item, f, Null)
  }

  /** The JSON object of the dedup file; a missing key is `None`. */
  datatype StoreDoc = StoreDoc(keyFields: Option<seq<string>>, seenItems: Option<map<string, Item>>)

  /** What lies on disk at the dedup storage path. */
  datatype StoreFile = Absent | Unreadable | Written(doc: StoreDoc)

  /** How a save attempt ends: the write can fail before the file is opened or
      after `open(..., 'w')` has already truncated it. */
  datatype WriteOutcome = WriteOk | FailBeforeOpen | FailWhileWriting

  /** `_load_seen_items`: the seen items a file provides, or none when there is no
      file, it cannot be parsed, or its key fields differ from the configured ones. */
  function LoadedSeenItems(keyFields: seq<string>, file: StoreFile): (r: map<string, Item>)
    ensures file.Written? && file.doc.keyFields.GetOr([]) == keyFields ==> r == file.doc.seenItems.GetOr(map[])
    ensures !file.Written? || file.doc.keyFields.GetOr([]) != keyFields ==> r == map[]
  {
    match file
    case Absent => map[]
    case Unreadable => map[]
    case Written(doc) =>
      if doc.keyFields.GetOr([]) != keyFields then map[] else doc.seenItems.GetOr(map[])
  }

  /** The seen-item store.  `storage` is the dedup file, `None` when none is configured. */
  class DeduplicationManager {
    const keyFields: seq<string>
    const enabled: bool
    const hash: string -> string
    /** `_generate_hash` */
    const fingerprint: Item -> string
    var storage: Option<StoreFile>
    var seenHashes: set<string>
    var seenItems: map<string, Item>

    /** The set of hashes is the key set of the item map. */
    predicate Valid()
      reads this
    {
      seenHashes == seenItems.Keys
    }

    /** Creates the store and, when enabled and a file is configured, loads it. */
    constructor (keyFields: seq<string>, storage: Option<StoreFile>, enabled: bool, hash: string -> string)
      ensures Valid()
      ensures this.keyFields == keyFields && this.enabled == enabled && this.hash == hash
      ensures fingerprint == FingerprintOf(keyFields, hash)
      ensures this.storage == storage
      ensures seenItems == if enabled && storage.Some? then LoadedSeenItems(keyFields, storage.value) else map[]
    {
      this.keyFields := keyFields;
      this.enabled := enabled;
      this.hash := hash;
      fingerprint := FingerprintOf(keyFields, hash);
      this.storage := storage;
      seenHashes := {};
      seenItems := map[];
      new;
      if enabled && storage.Some? {
        LoadSeenItems();
      }
    }

    /** `_load_seen_items` */
    method LoadSeenItems()
      requires Valid() && storage.Some?
      modifies this`seenItems, this`seenHashes
      ensures Valid()
      ensures LoadedSeenItems(keyFields, storage.value) != map[] ==> seenItems == LoadedSeenItems(keyFields, storage.value)
      ensures LoadedSeenItems(keyFields, storage.value) == map[] ==>
        (seenItems == old(seenItems) && seenHashes == old(seenHashes)) || seenItems == map[]
      ensures old(seenItems) == map[] && old(seenHashes) == {} ==> seenItems == LoadedSeenItems(keyFields, storage.value)
    {
      var file := storage.value;
      if file.Absent? {
        return;
      }
      if file.Unreadable? {
        seenItems := map[];
        seenHashes := {};
        return;
      }
      if file.doc.keyFields.GetOr([]) != keyFields {
        return;
      }
      seenItems := file.doc.seenItems.GetOr(map[]);
      seenHashes := seenItems.Keys;
    }

    /** `is_duplicate`, also the `in` operator on the store. */
    predicate IsDuplicate(item: Item)
      reads this
    {
      enabled && fingerprint(item) in seenHashes
    }

    /** Records the item's fingerprint and key values; a disabled store ignores it and returns "". */
    method MarkAsSeen(item: Item) returns (h: string)
      requires Valid()
      modifies this`seenHashes, this`seenItems
      ensures Valid()
      ensures !enabled ==> h == "" && seenItems == old(seenItems)
      ensures enabled ==> h == fingerprint(item)
      ensures enabled ==> seenItems == old(seenItems)[h := KeyInfo(item, keyFields)]
      ensures enabled ==> forall other: Item :: fingerprint(other) == fingerprint(item) ==> IsDuplicate(other)
      ensures forall other: Item :: old(IsDuplicate(other)) ==> IsDuplicate(other)
    {
      if !enabled {
        return "";
      }
      h := fingerprint(item);
      seenHashes := seenHashes + {h};
      seenItems := seenItems[h := KeyInfo(item, keyFields)];
    }

    /** Writes the key fields and seen items to the dedup file, when enabled and configured. */
    method Save(outcome: WriteOutcome)
      modifies this`storage
      ensures !enabled || old(storage).None? || outcome == FailBeforeOpen ==> storage == old(storage)
      ensures enabled && old(storage).Some? && outcome == WriteOk ==>
        storage == Some(Written(StoreDoc(Some(keyFields), Some(seenItems))))
      ensures enabled && old(storage).Some? && outcome == FailWhileWriting ==> storage == Some(Unreadable)
    {
      if !enabled || storage.None? {
        return;
      }
      match outcome
      case WriteOk => storage := Some(Written(StoreDoc(Some(keyFields), Some(seenItems))));
      case FailWhileWriting => storage := Some(Unreadable);
      case FailBeforeOpen =>
    }

    method Clear()
      modifies this`seenHashes, this`seenItems
      ensures Valid() && seenItems == map[]
      ensures forall item: Item :: !IsDuplicate(item)
    {
      seenHashes := {};
      seenItems := map[];
    }

    /** `len(store)`: the number of items seen. */
    function Len(): (n: nat)
      reads this
      ensures Valid() ==> n == |seenHashes|
    {
      |seenItems|
    }
  }

  /** A saved store read back by a new manager with the same key fields holds
      the same items. */
  lemma SaveLoadRoundTrip(keyFields: seq<string>, seen: map<string, Item>)
    ensures LoadedSeenItems(keyFields, Written(StoreDoc(Some(keyFields), Some(seen)))) == seen
  {
  }

  /** The set of fingerprints of a list of items. */
  function Fingerprints(s: seq<Item>, fp: Item -> string): set<string> {
    set i | 0 <= i < |s| :: fp(s[i])
  }

  /** Keeps each item whose fingerprint did not occur earlier in the list. */
  function KeepFirst(s: seq<Item>, fp: Item -> string): seq<Item>
  {
    if s == [] then []
    else
      var init := s[..|s| - 1];
      KeepFirst(init, fp) + (if fp(s[|s| - 1]) in Fingerprints(init, fp) then [] else [s[|s| - 1]])
  }

  /** Keeps each item whose fingerprint does not occur later in the list. */
  function KeepLast(s: seq<Item>, fp: Item -> string): seq<Item>
  {
    if s == [] then []
    else (if fp(s[0]) in Fingerprints(s[1..], fp) then [] else [s[0]]) + KeepLast(s[1..], fp)
  }

  predicate DistinctFingerprints(s: seq<Item>, fp: Item -> string) {
    forall i, j :: 0 <= i < j < |s| ==> fp(s[i]) != fp(s[j])
  }

  lemma FingerprintsAppend(a: seq<Item>, b: seq<Item>, fp: Item -> string)
    ensures Fingerprints(a + b, fp) == Fingerprints(a, fp) + Fingerprints(b, fp)
  {
    var ab := a + b;
    forall h | h in Fingerprints(ab, fp) ensures h in Fingerprints(a, fp) + Fingerprints(b, fp) {
      var i :| 0 <= i < |ab| && fp(ab[i]) == h;
      if i >= |a| { assert ab[i] == b[i - |a|]; }
    }
    forall h | h in Fingerprints(a, fp) + Fingerprints(b, fp) ensures h in Fingerprints(ab, fp) {
      if h in Fingerprints(a, fp) {
        var i :| 0 <= i < |a| && fp(a[i]) == h;
        assert ab[i] == a[i];
      } else {
        var i :| 0 <= i < |b| && fp(b[i]) == h;
        assert ab[|a| + i] == b[i];
      }
    }
  }

  /** Keep-first keeps every fingerprint of the list, each exactly once. */
  lemma {:induction false} KeepFirstCovers(s: seq<Item>, fp: Item -> string)
    ensures Fingerprints(KeepFirst(s, fp), fp) == Fingerprints(s, fp)
    ensures DistinctFingerprints(KeepFirst(s, fp), fp)
  {
    if s != [] {
      var init := s[..|s| - 1];
      var x := s[|s| - 1];
      KeepFirstCovers(init, fp);
      assert s == init + [x];
      FingerprintsAppend(init, [x], fp);
      assert Fingerprints([x], fp) == {fp(x)};
      var tail := if fp(x) in Fingerprints(init, fp) then [] else [x];
      FingerprintsAppend(KeepFirst(init, fp), tail, fp);
      var r := KeepFirst(init, fp) + tail;
      forall i, j | 0 <= i < j < |r| ensures fp(r[i]) != fp(r[j]) {
        if j == |r| - 1 && tail == [x] {
          assert r[i] == KeepFirst(init, fp)[i];
          assert fp(r[i]) in Fingerprints(KeepFirst(init, fp), fp);
        }
      }
    }
  }

  function Reverse<T>(s: seq<T>): (r: seq<T>)
    ensures |r| == |s|
  {
    if s == [] then [] else Reverse(s[1..]) + [s[0]]
  }

  lemma {:induction false} ReverseAppend<T>(a: seq<T>, b: seq<T>)
    ensures Reverse(a + b) == Reverse(b) + Reverse(a)
    decreases |a|
  {
    if a == [] {
      assert a + b == b;
    } else {
      assert (a + b)[1..] == a[1..] + b;
      ReverseAppend(a[1..], b);
    }
  }

  lemma {:induction false} ReverseReverse<T>(s: seq<T>)
    ensures Reverse(Reverse(s)) == s
    decreases |s|
  {
    if s != [] {
      ReverseAppend(Reverse(s[1..]), [s[0]]);
      ReverseReverse(s[1..]);
      assert Reverse([s[0]]) == [s[0]];
      assert s == [s[0]] + s[1..];
    }
  }

  lemma {:induction false} FingerprintsReverse(s: seq<Item>, fp: Item -> string)
    ensures Fingerprints(Reverse(s), fp) == Fingerprints(s, fp)
    decreases |s|
  {
    if s != [] {
      FingerprintsReverse(s[1..], fp);
      FingerprintsAppend(Reverse(s[1..]), [s[0]], fp);
      FingerprintsAppend([s[0]], s[1..], fp);
      assert s == [s[0]] + s[1..];
    }
  }

  /** Keep-last is keep-first on the reversed list, reversed back: the order used
      by `deduplicate_list(..., keep="last")`. */
  lemma {:induction false} KeepLastByReversal(s: seq<Item>, fp: Item -> string)
    ensures Reverse(KeepFirst(Reverse(s), fp)) == KeepLast(s, fp)
    decreases |s|
  {
    if s != [] {
      var rs := Reverse(s);
      assert rs[..|rs| - 1] == Reverse(s[1..]) && rs[|rs| - 1] == s[0];
      FingerprintsReverse(s[1..], fp);
      var tail := if fp(s[0]) in Fingerprints(s[1..], fp) then [] else [s[0]];
      assert KeepFirst(rs, fp) == KeepFirst(Reverse(s[1..]), fp) + tail;
      ReverseAppend(KeepFirst(Reverse(s[1..]), fp), tail);
      assert Reverse(tail) == tail;
      KeepLastByReversal(s[1..], fp);
    }
  }

  /** Keep-last also keeps every fingerprint exactly once. */
  lemma KeepLastCovers(s: seq<Item>, fp: Item -> string)
    ensures Fingerprints(KeepLast(s, fp), fp) == Fingerprints(s, fp)
    ensures DistinctFingerprints(KeepLast(s, fp), fp)
  {
    var k := KeepFirst(Reverse(s), fp);
    KeepLastByReversal(s, fp);
    KeepFirstCovers(Reverse(s), fp);
    FingerprintsReverse(s, fp);
    FingerprintsReverse(k, fp);
    forall i, j | 0 <= i < j < |Reverse(k)| ensures fp(Reverse(k)[i]) != fp(Reverse(k)[j]) {
      ReverseAt(k, i);
      ReverseAt(k, j);
    }
  }

  lemma {:induction false} ReverseAt<T>(s: seq<T>, i: nat)
    requires i < |s|
    ensures Reverse(s)[i] == s[|s| - 1 - i]
    decreases |s|
  {
    if i < |s| - 1 {
      ReverseAt(s[1..], i);
    }
  }

  /** `BatchDeduplicator.deduplicate_list`, run through a fresh enabled store. */
  method DeduplicateList(items: seq<Item>, keyFields: seq<string>, hash: string -> string, keep: string)
    returns (r: Result<seq<Item>, string>)
    ensures r.Ok? <==> keep == "first" || keep == "last"
    ensures keep == "first" ==> r == Ok(KeepFirst(items, FingerprintOf(keyFields, hash)))
    ensures keep == "last" ==> r == Ok(KeepLast(items, FingerprintOf(keyFields, hash)))
  {
    var manager := new DeduplicationManager(keyFields, None, true, hash);
    var deduplicated: seq<Item>;
    if keep == "first" {
      deduplicated := KeepFirstThroughStore(items, manager);
    } else if keep == "last" {
      deduplicated := KeepFirstThroughStore(Reverse(items), manager);
      deduplicated := Reverse(deduplicated);
      KeepLastByReversal(items, manager.fingerprint);
    } else {
      return Err("Invalid keep value: " + keep + ". Must be 'first' or 'last'");
    }
    return Ok(deduplicated);
  }

  /** The loop of `deduplicate_list`: an item is kept when the store has not seen
      its fingerprint yet, and is then marked as seen. */
  method KeepFirstThroughStore(source: seq<Item>, manager: DeduplicationManager)
    returns (deduplicated: seq<Item>)
    requires manager.Valid() && manager.enabled && manager.seenHashes == {}
    modifies manager`seenHashes, manager`seenItems
    ensures manager.Valid()
    ensures deduplicated == KeepFirst(source, manager.fingerprint)
    ensures manager.seenHashes == Fingerprints(source, manager.fingerprint)
  {
    var fp := manager.fingerprint;
    deduplicated := [];
    var duplicatesFound := 0;
    var i := 0;
    while i < |source|
      invariant 0 <= i <= |source|
      invariant manager.Valid()
      invariant manager.seenHashes == Fingerprints(source[..i], fp)
      invariant deduplicated == KeepFirst(source[..i], fp)
    {
      var item := source[i];
      assert source[..i + 1][..i] == source[..i];
      FingerprintsAppend(source[..i], [item], fp);
      assert source[..i + 1] == source[..i] + [item];
      assert Fingerprints([item], fp) == {fp(item)};
      if !manager.IsDuplicate(item) {
        var _ := manager.MarkAsSeen(item);
        deduplicated := deduplicated + [item];
      } else {
        duplicatesFound := duplicatesFound + 1;
      }
      i := i + 1;
    }
    assert source[..|source|] == source;
  }

  /** The positions, ascending, at which fingerprint `h` occurs in `fps`. */
  function Positions(fps: seq<string>, h: string): (r: seq<nat>)
    ensures forall k :: 0 <= k < |r| ==> r[k] < |fps| && fps[r[k]] == h
    ensures forall k, l :: 0 <= k < l < |r| ==> r[k] < r[l]
  {
    if fps == [] then []
    else
      var init := fps[..|fps| - 1];
      Positions(init, h) + (if fps[|fps| - 1] == h then [|fps| - 1] else [])
  }

  /** Every occurrence of `h` is listed. */
  lemma {:induction false} PositionsComplete(fps: seq<string>, h: string, i: nat)
    requires i < |fps| && fps[i] == h
    ensures i in Positions(fps, h)
    decreases |fps|
  {
    if i < |fps| - 1 {
      PositionsComplete(fps[..|fps| - 1], h, i);
    }
  }

  lemma {:induction false} PositionsEmpty(fps: seq<string>, h: string)
    requires h !in fps
    ensures Positions(fps, h) == []
    decreases |fps|
  {
    if fps != [] {
      assert forall x :: x in fps[..|fps| - 1] ==> x in fps;
      PositionsEmpty(fps[..|fps| - 1], h);
    }
  }

  /** `BatchDeduplicator.find_duplicates`: each fingerprint occurring at least twice,
      with all the positions where it occurs. */
  method FindDuplicates(items: seq<Item>, keyFields: seq<string>, hash: string -> string)
    returns (duplicates: map<string, seq<nat>>)
    ensures forall h :: h in duplicates <==> |Positions(FingerprintList(items, FingerprintOf(keyFields, hash)), h)| > 1
    ensures forall h :: h in duplicates ==> duplicates[h] == Positions(FingerprintList(items, FingerprintOf(keyFields, hash)), h)
  {
    var manager := new DeduplicationManager(keyFields, None, true, hash);
    var hashToIndices := GroupPositions(items, manager);
    duplicates := map h | h in hashToIndices && |hashToIndices[h]| > 1 :: hashToIndices[h];
    forall h | h !in hashToIndices
      ensures |Positions(FingerprintList(items, manager.fingerprint), h)| <= 1
    {
      PositionsEmpty(FingerprintList(items, manager.fingerprint), h);
    }
  }

  /** The first loop of `find_duplicates`: every fingerprint that occurs, with the
      list of its positions. */
  method GroupPositions(items: seq<Item>, manager: DeduplicationManager) returns (hashToIndices: map<string, seq<nat>>)
    ensures forall h :: h in hashToIndices <==> h in FingerprintList(items, manager.fingerprint)
    ensures forall h :: h in hashToIndices ==> hashToIndices[h] == Positions(FingerprintList(items, manager.fingerprint), h)
  {
    var fps := FingerprintList(items, manager.fingerprint);
    hashToIndices := map[];
    var idx := 0;
    while idx < |items|
      invariant 0 <= idx <= |items|
      invariant forall h :: h in hashToIndices <==> h in fps[..idx]
      invariant forall h :: h in hashToIndices ==> hashToIndices[h] == Positions(fps[..idx], h)
    {
      var itemHash := manager.fingerprint(items[idx]);
      assert fps[..idx + 1][..idx] == fps[..idx];
      assert fps[..idx + 1] == fps[..idx] + [itemHash];
      if itemHash !in hashToIndices {
        PositionsEmpty(fps[..idx], itemHash);
        hashToIndices := hashToIndices[itemHash := []];
      }
      hashToIndices := hashToIndices[itemHash := hashToIndices[itemHash] + [idx]];
      idx := idx + 1;
    }
    assert fps[..|items|] == fps;
  }

  /** The fingerprint of each item, in list order. */
  function FingerprintList(items: seq<Item>, fp: Item -> string): (r: seq<string>)
    ensures |r| == |items|
    ensures forall i :: 0 <= i < |items| ==> r[i] == fp(items[i])
  {
    seq(|items|, i requires 0 <= i < |items| => fp(items[i]))
  }
}

/**
 What a bundle's digest covers and what its archive contains. SHA-256 over the fixed-order JSON is
 the constructor `Sha256`: equal digests, equal items. The archive is its list of named entries,
 each with the storage key its bytes are read from.
 */
module BundleDigest {
  import opened Wrappers

  datatype FileRow = FileRow(id: string, key: string, storageKey: string, contentHash: Option<string>)

  datatype BundleObject = BundleObject(
    fileId: string, path: Option<string>, required: bool, sortOrder: int, file: Option<FileRow>)

  // The enabled objects of a bundle, in (sortOrder, id) order.
  type Composition = seq<BundleObject>

  datatype Item = Item(fileId: string, contentHash: string, path: Option<string>, required: bool, sortOrder: int)

  // NoDigest is the empty string that a new bundle carries.
  datatype Digest = NoDigest | Sha256(items: seq<Item>)

  datatype Entry = Entry(name: string, storageKey: string)

  function ItemOf(o: BundleObject): Item {
    var hash := if o.file.Some? && o.file.value.contentHash.Some? then o.file.value.contentHash.value else "";
    Item(o.fileId, hash, o.path, o.required, o.sortOrder)
  }

  function Items(c: Composition): seq<Item> {
    seq(|c|, i requires 0 <= i < |c| => ItemOf(c[i]))
  }

  function DigestOf(c: Composition): Digest {
    Sha256(Items(c))
  }

  predicate HasContent(o: BundleObject) {
    o.file.Some? && o.file.value.storageKey != ""
  }

  function EntryOf(o: BundleObject): Entry
    requires HasContent(o)
  {
    Entry(if o.path.Some? then o.path.value else o.file.value.key, o.file.value.storageKey)
  }

  // Rows whose file or storage key is missing are left out.
  function Entries(c: Composition): seq<Entry> {
    if c == [] then []
    else Entries(c[..|c| - 1]) + if HasContent(c[|c| - 1]) then [EntryOf(c[|c| - 1])] else []
  }

  /** One entry more for an object with a stored file, under its path or else its key; none for any other object. */
  lemma {:induction false} EntriesGrow(c: Composition, o: BundleObject)
    ensures Entries([]) == []
    ensures Entries(c + [o])
            == Entries(c)
               + match o.file
                 case None => []
                 case Some(f) =>
                   if f.storageKey == "" then []
                   else [Entry(match o.path { case Some(path) => path case None => f.key }, f.storageKey)]
  {
    assert (c + [o])[..|c|] == c;
  }

  method ComputeBundleDigest(c: Composition) returns (digest: Digest, items: seq<Item>)
    ensures items == Items(c) && digest == DigestOf(c)
  {
    items := [];
    for i := 0 to |c|
      invariant items == Items(c[..i])
    {
      items := items + [ItemOf(c[i])];
    }
    assert c[..|c|] == c;
    digest := Sha256(items);
  }

  method WriteEntries(rows: Composition) returns (zip: seq<Entry>)
    ensures zip == Entries(rows)
  {
    zip := [];
    for i := 0 to |rows|
      invariant zip == Entries(rows[..i])
    {
      assert rows[..i + 1][..i] == rows[..i];
      if HasContent(rows[i]) {
        zip := zip + [EntryOf(rows[i])];
      }
    }
    assert rows[..|rows|] == rows;
  }

  // Two levels of directories from the start of the hash, and then the hash.
  function PathForHash(hash: string): string {
    var a := if |hash| == 0 then "00" else if |hash| < 2 then hash else hash[..2];
    var b := if |hash| <= 2 then "00" else if |hash| < 4 then hash[2..] else hash[2..4];
    a + "/" + b + (if hash == "" then "" else "/" + hash)
  }

  // Where the storage service keeps a file with this hash.
  function KeyForHash(prefix: string, hash: string): (key: string)
    ensures key != ""
  {
    (if prefix == "" then "" else prefix + "/") + "objects/sha256/" + PathForHash(hash)
  }

  lemma {:induction false} PathShape(hash: string)
    ensures var path := PathForHash(hash);
            match |hash|
            case 0 => |path| == 5
            case 1 => |path| == 6 && path[5..] == hash
            case 2 => |path| == 8 && path[6..] == hash && path[4] == '0'
            case 3 => |path| == 8 && path[5..] == hash && path[4] == '/'
            case n => |path| == n + 6 && path[6..] == hash
  {
  }

  /**
   A hash of four characters or more lies in directories named by its first two and its next two; and
   different hashes, of whatever length, have different keys.
   */
  lemma {:induction false} KeysTellHashesApart(prefix: string, hash: string, other: string)
    ensures |hash| >= 4 ==>
              KeyForHash(prefix, hash) == (if prefix == "" then "" else prefix + "/") + "objects/sha256/"
                                          + (hash[..2] + "/" + hash[2..4] + "/" + hash)
    ensures KeyForHash(prefix, hash) == KeyForHash(prefix, other) <==> hash == other
  {
    PathShape(hash);
    PathShape(other);
    SamePath((if prefix == "" then "" else prefix + "/") + "objects/sha256/", PathForHash(hash), PathForHash(other));
  }

  lemma {:induction false} SamePath(root: string, p: string, q: string)
    ensures root + p == root + q <==> p == q
  {
    assert (root + p)[|root|..] == p && (root + q)[|root|..] == q;
  }

  // Every object's file exists and lies under the key of its content hash.
  predicate Stored(prefix: string, c: Composition) {
    forall o :: o in c ==>
      o.file.Some? && o.file.value.contentHash.Some?
      && o.file.value.storageKey == KeyForHash(prefix, o.file.value.contentHash.value)
  }

  predicate PathsGiven(c: Composition) {
    forall o :: o in c ==> o.path.Some?
  }

  lemma {:induction false} EntryAt(prefix: string, c: Composition)
    requires Stored(prefix, c)
    ensures |Entries(c)| == |c|
    ensures forall i :: 0 <= i < |c| ==> HasContent(c[i]) && Entries(c)[i] == EntryOf(c[i])
    decreases |c|
  {
    if c != [] {
      EntryAt(prefix, c[..|c| - 1]);
      assert c[|c| - 1] in c;
    }
  }

  /** Equal digests mean equal archives, for stored files with their paths given. */
  lemma {:induction false} EqualDigestsEqualEntries(prefix: string, c: Composition, d: Composition)
    requires Stored(prefix, c) && Stored(prefix, d) && PathsGiven(c)
    requires DigestOf(c) == DigestOf(d)
    ensures Entries(c) == Entries(d)
  {
    EntryAt(prefix, c);
    EntryAt(prefix, d);
    assert |Items(c)| == |Items(d)|;
    forall i | 0 <= i < |c|
      ensures EntryOf(c[i]) == EntryOf(d[i])
    {
      assert Items(c)[i] == Items(d)[i];
      assert c[i] in c && d[i] in d;
    }
  }

  // What the digest covers of an object: its content hash, if it has one, and its own columns.
  predicate SameItem(o: BundleObject, p: BundleObject) {
    && o.fileId == p.fileId && o.path == p.path && o.required == p.required && o.sortOrder == p.sortOrder
    && HashText(o) == HashText(p)
  }

  function HashText(o: BundleObject): string {
    match o.file
    case Some(FileRow(_, _, _, Some(hash))) => hash
    case _ => ""
  }

  /** Two compositions have one digest exactly when their objects agree, one by one, in what it covers. */
  lemma {:induction false} DigestCoversExactly(c: Composition, d: Composition)
    ensures DigestOf(c) == DigestOf(d) <==> |c| == |d| && forall i :: 0 <= i < |c| ==> SameItem(c[i], d[i])
  {
    assert |Items(c)| == |c| && |Items(d)| == |d|;
    if DigestOf(c) == DigestOf(d) {
      forall i | 0 <= i < |c| ensures SameItem(c[i], d[i]) {
        assert Items(c)[i] == Items(d)[i];
      }
    }
    if |c| == |d| && forall i :: 0 <= i < |c| ==> SameItem(c[i], d[i]) {
      assert forall i :: 0 <= i < |c| ==> ItemOf(c[i]) == ItemOf(d[i]);
      assert Items(c) == Items(d);
    }
  }

  // The composition with the file key of object i renamed.
  function Rename(c: Composition, i: nat): Composition
    requires i < |c| && c[i].file.Some?
  {
    var f := c[i].file.value;
    c[i := c[i].(file := Some(f.(key := f.key + "'")))]
  }

  lemma {:induction false} RenameKeepsDigest(prefix: string, c: Composition, i: nat)
    requires i < |c| && c[i].file.Some? && Stored(prefix, c)
    ensures Stored(prefix, Rename(c, i)) && DigestOf(Rename(c, i)) == DigestOf(c)
  {
    var d := Rename(c, i);
    forall k | 0 <= k < |d|
      ensures ItemOf(d[k]) == ItemOf(c[k])
      ensures d[k].file.Some? && d[k].file.value.contentHash.Some?
      ensures d[k].file.value.storageKey == KeyForHash(prefix, d[k].file.value.contentHash.value)
    {
      assert c[k] in c;
    }
    assert Items(d) == Items(c);
  }

  lemma {:induction false} RenameChangesArchive(prefix: string, c: Composition, i: nat)
    requires i < |c| && c[i].file.Some? && c[i].path == None
    requires Stored(prefix, c) && Stored(prefix, Rename(c, i))
    ensures Entries(Rename(c, i)) != Entries(c)
  {
    var d := Rename(c, i);
    EntryAt(prefix, c);
    EntryAt(prefix, d);
    assert |EntryOf(d[i]).name| == |EntryOf(c[i]).name| + 1;
  }

  /**
   A stored composition's digest decides its archive exactly when every object has a path: the digest
   does not cover the file key that names an object without one.
   */
  lemma {:induction false} DigestDecidesArchiveExactly(prefix: string, c: Composition)
    requires Stored(prefix, c)
    ensures PathsGiven(c) <==>
            forall d :: Stored(prefix, d) && DigestOf(d) == DigestOf(c) ==> Entries(d) == Entries(c)
  {
    if PathsGiven(c) {
      forall d | Stored(prefix, d) && DigestOf(d) == DigestOf(c)
        ensures Entries(d) == Entries(c)
      {
        EqualDigestsEqualEntries(prefix, c, d);
      }
    } else {
      var i :| 0 <= i < |c| && c[i].path == None;
      assert c[i] in c;
      RenameKeepsDigest(prefix, c, i);
      RenameChangesArchive(prefix, c, i);
    }
  }
}

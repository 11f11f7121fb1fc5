/** The Bloom filter over local file names: a bit array probed by k seeded hashes, which tells the
    existence check that a name was certainly never added. */
module BloomFilters {
  import opened Wrappers
  import opened Models
  import opened Selection

  /** `int(md5(f"{item}:{seed}").hexdigest()[:8], 16)`: the digest is foreign code, so it is a
      parameter of the filter; only its reduction modulo m is modelled. */
  type Digest = (string, nat) -> nat

  /** `ceil(m / 8)`: the number of bytes that hold m bits. */
  function ByteCount(m: nat): (r: nat)
    ensures 8 * r >= m && (r == 0 || 8 * (r - 1) < m)
  {
    (m + 7) / 8
  }

  /** The byte mask `1 << offset`. */
  function Mask(offset: nat): (r: byte)
    requires offset < 8
    ensures r != 0
  {
    (1 as byte) << offset
  }

  /** Two distinct offsets of one byte have disjoint masks. */
  lemma MasksDisjoint(x: byte, o: nat, p: nat)
    requires o < 8 && p < 8 && o != p
    ensures (x | Mask(o)) & Mask(p) == x & Mask(p)
  {
  }

  /** Bit `index` (bit `index % 8` of byte `index / 8`) is set. */
  predicate BitSet(bits: seq<byte>, index: nat)
    requires index / 8 < |bits|
  {
    bits[index / 8] & Mask(index % 8) != 0
  }

  /** `bits[index // 8] |= 1 << (index % 8)`: the array with bit `index` set and every other bit
      as it was. */
  function SetBit(bits: seq<byte>, index: nat): (r: seq<byte>)
    requires index / 8 < |bits|
    ensures |r| == |bits|
    ensures forall j: nat :: j / 8 < |bits| ==> (BitSet(r, j) <==> BitSet(bits, j) || j == index)
  {
    var r := bits[index / 8 := bits[index / 8] | Mask(index % 8)];
    forall j: nat | j / 8 < |bits|
      ensures BitSet(r, j) <==> BitSet(bits, j) || j == index
    {
      if j / 8 == index / 8 && j % 8 != index % 8 {
        MasksDisjoint(bits[index / 8], index % 8, j % 8);
      }
    }
    r
  }

  /** A byte array of `n` zero bytes, as `bytearray(n)` makes it. */
  function Cleared(n: nat): seq<byte>
  {
    seq(n, _ => 0 as byte)
  }

  /** A cleared array has no bit set. */
  lemma ClearedHasNoBits(n: nat, j: nat)
    requires j / 8 < n
    ensures !BitSet(Cleared(n), j)
  {
    assert Cleared(n)[j / 8] == 0;
  }

  /** The item counts as completed for the cache: status COMPLETED and verified against the disk. */
  predicate CompletedOnDisk(item: FileItem)
    reads item
  {
    item.status == Completed && item.diskVerified
  }

  /** The full names of the completed, disk-verified items, in input order. */
  function CompletedNames(items: seq<FileItem>): (r: seq<string>)
    reads items
    ensures |r| <= |items|
  {
    if items == [] then []
    else
      var rest := CompletedNames(items[..|items| - 1]);
      if CompletedOnDisk(items[|items| - 1]) then rest + [items[|items| - 1].fullFilename] else rest
  }

  /** The collected names are exactly the full names of the completed, disk-verified items. */
  lemma {:induction false} CompletedNamesExactly(items: seq<FileItem>)
    ensures forall i :: 0 <= i < |items| && CompletedOnDisk(items[i]) ==> items[i].fullFilename in CompletedNames(items)
    ensures forall s :: s in CompletedNames(items) ==>
              exists i :: 0 <= i < |items| && CompletedOnDisk(items[i]) && items[i].fullFilename == s
  {
    if items != [] {
      var init := items[..|items| - 1];
      CompletedNamesExactly(init);
      assert forall i :: 0 <= i < |init| ==> init[i] == items[i];
    }
  }

  /** Some name is collected exactly when some item is completed and verified. */
  lemma NonEmptyIffCompleted(items: seq<FileItem>)
    ensures |CompletedNames(items)| > 0 <==> exists i :: 0 <= i < |items| && CompletedOnDisk(items[i])
  {
    CompletedNamesExactly(items);
    if exists i :: 0 <= i < |items| && CompletedOnDisk(items[i]) {
      var j :| 0 <= j < |items| && CompletedOnDisk(items[j]);
      assert items[j].fullFilename in CompletedNames(items);
    }
  }

  /** `FileBloomFilter` together with the members it inherits from `BloomFilter`. */
  class FileBloomFilter {
    /** m, the number of bits. */
    const bitArraySize: nat
    /** k, the number of probes per item. */
    const hashFunctionsCount: nat
    const digest: Digest
    var bitArray: array<byte>
    var itemsCount: nat
    var builtFromCache: bool
    var cacheTimestamp: Option<string>
    /** The names added since the array was last cleared, duplicates included. */
    ghost var added: seq<string>

    /** The array holds m bits, the count is the number of additions, and every name added is a
        member. */
    ghost predicate Valid()
      reads this, bitArray
    {
      bitArraySize > 0 && bitArray.Length == ByteCount(bitArraySize)
      && itemsCount == |added|
      && forall s :: s in added ==> Member(bitArray[..], s)
    }

    /** `_hash(item, seed)`: the probed bit, whose byte lies within the array. */
    function Probe(item: string, seed: nat): (r: nat)
      requires bitArraySize > 0
      ensures r < bitArraySize && r / 8 < ByteCount(bitArraySize)
    {
      digest(item, seed) % bitArraySize
    }

    /** `item in filter` over the bytes `bits`: every one of the k probes hits a set bit. */
    predicate Member(bits: seq<byte>, item: string)
    {
      bitArraySize > 0 && |bits| == ByteCount(bitArraySize)
      && forall i :: 0 <= i < hashFunctionsCount ==> BitSet(bits, Probe(item, i))
    }

    /** For each item, whether its full name is a member of `bits`. */
    function Membership(bits: seq<byte>, items: seq<FileItem>): (r: seq<bool>)
      ensures |r| == |items|
    {
      seq(|items|, i requires 0 <= i < |items| => Member(bits, items[i].fullFilename))
    }

    /** The bytes after the first `n` probes of `item` are set. */
    function Added(bits: seq<byte>, item: string, n: nat): (r: seq<byte>)
      requires bitArraySize > 0 && |bits| == ByteCount(bitArraySize)
      ensures |r| == |bits|
    {
      if n == 0 then bits else SetBit(Added(bits, item, n - 1), Probe(item, n - 1))
    }

    /** The bytes after adding each of `items` in turn. */
    function AddedAll(bits: seq<byte>, items: seq<string>): (r: seq<byte>)
      requires bitArraySize > 0 && |bits| == ByteCount(bitArraySize)
      ensures |r| == |bits|
    {
      if items == [] then bits
      else Added(AddedAll(bits, items[..|items| - 1]), items[|items| - 1], hashFunctionsCount)
    }

    /** The first `n` probes set exactly their own bits and keep every bit set before. */
    lemma {:induction false} AddedBits(bits: seq<byte>, item: string, n: nat, j: nat)
      requires bitArraySize > 0 && |bits| == ByteCount(bitArraySize) && j / 8 < |bits|
      ensures BitSet(Added(bits, item, n), j) <==> BitSet(bits, j) || exists i :: 0 <= i < n && Probe(item, i) == j
    {
      if n > 0 {
        AddedBits(bits, item, n - 1, j);
      }
    }

    /** After the k probes of `item`, `item` is a member, and so is every earlier member. */
    lemma AddedMembers(bits: seq<byte>, item: string, other: string)
      requires bitArraySize > 0 && |bits| == ByteCount(bitArraySize)
      ensures Member(Added(bits, item, hashFunctionsCount), item)
      ensures Member(bits, other) ==> Member(Added(bits, item, hashFunctionsCount), other)
    {
      var r := Added(bits, item, hashFunctionsCount);
      forall i | 0 <= i < hashFunctionsCount
        ensures BitSet(r, Probe(item, i))
      {
        AddedBits(bits, item, hashFunctionsCount, Probe(item, i));
      }
      if Member(bits, other) {
        forall i | 0 <= i < hashFunctionsCount
          ensures BitSet(r, Probe(other, i))
        {
          AddedBits(bits, item, hashFunctionsCount, Probe(other, i));
        }
      }
    }

    /** `FileBloomFilter(expected_files)` with the parameters m and k it derives: every bit clear,
        nothing added, not built. */
    constructor (bitArraySize: nat, hashFunctionsCount: nat, digest: Digest)
      requires bitArraySize > 0 && hashFunctionsCount >= 1
      ensures this.bitArraySize == bitArraySize && this.hashFunctionsCount == hashFunctionsCount
      ensures this.digest == digest
      ensures Valid() && fresh(bitArray) && bitArray[..] == Cleared(ByteCount(bitArraySize))
      ensures itemsCount == 0 && added == [] && !builtFromCache && cacheTimestamp == None
      ensures !IsCacheValid()
    {
      this.bitArraySize := bitArraySize;
      this.hashFunctionsCount := hashFunctionsCount;
      this.digest := digest;
      bitArray := new byte[ByteCount(bitArraySize)](_ => 0 as byte);
      itemsCount := 0;
      builtFromCache := false;
      cacheTimestamp := None;
      added := [];
    }

    /** The loop of `add(item)`: sets the k probed bits of `item` in the array. */
    method SetProbes(item: string)
      requires bitArraySize > 0 && bitArray.Length == ByteCount(bitArraySize)
      modifies bitArray
      ensures bitArray[..] == Added(old(bitArray[..]), item, hashFunctionsCount)
    {
      var i := 0;
      while i < hashFunctionsCount
        invariant 0 <= i <= hashFunctionsCount
        invariant bitArray[..] == Added(old(bitArray[..]), item, i)
      {
        var bitIndex := Probe(item, i);
        var byteIndex := bitIndex / 8;
        var bitOffset := bitIndex % 8;
        ghost var bits := bitArray[..];
        bitArray[byteIndex] := bitArray[byteIndex] | Mask(bitOffset);
        assert bitArray[..] == SetBit(bits, bitIndex);
        i := i + 1;
      }
    }

    /** Adding `item` keeps every earlier member a member and makes `item` one. */
    lemma AddedKeepsMembers(bits: seq<byte>, item: string, names: seq<string>)
      requires bitArraySize > 0 && |bits| == ByteCount(bitArraySize)
      requires forall s :: s in names ==> Member(bits, s)
      ensures forall s :: s in names + [item] ==> Member(Added(bits, item, hashFunctionsCount), s)
    {
      forall s | s in names + [item]
        ensures Member(Added(bits, item, hashFunctionsCount), s)
      {
        AddedMembers(bits, item, s);
      }
    }

    /** `add(item)`: sets the k probed bits of `item` and counts one more item, duplicates
        included. */
    method Add(item: string)
      requires Valid()
      modifies this, bitArray
      ensures Valid() && bitArray == old(bitArray)
      ensures bitArray[..] == Added(old(bitArray[..]), item, hashFunctionsCount)
      ensures itemsCount == old(itemsCount) + 1 && added == old(added) + [item]
      ensures Member(bitArray[..], item)
      ensures forall s :: Member(old(bitArray[..]), s) ==> Member(bitArray[..], s)
      ensures builtFromCache == old(builtFromCache) && cacheTimestamp == old(cacheTimestamp)
    {
      ghost var before := bitArray[..];
      SetProbes(item);
      AddedKeepsMembers(before, item, added);
      itemsCount := itemsCount + 1;
      added := added + [item];
      forall s
        ensures Member(before, s) ==> Member(bitArray[..], s)
      {
        AddedMembers(before, item, s);
      }
    }

    /** `item in filter`: false as soon as one probed bit is clear. Never false for a name added
        since the array was last cleared. */
    method Contains(item: string) returns (r: bool)
      requires Valid()
      ensures r == Member(bitArray[..], item)
      ensures item in added ==> r
    {
      var i := 0;
      while i < hashFunctionsCount
        invariant 0 <= i <= hashFunctionsCount
        invariant forall j :: 0 <= j < i ==> BitSet(bitArray[..], Probe(item, j))
      {
        var bitIndex := Probe(item, i);
        if bitArray[bitIndex / 8] & Mask(bitIndex % 8) == 0 {
          assert !BitSet(bitArray[..], Probe(item, i));
          return false;
        }
        i := i + 1;
      }
      return true;
    }

    /** `add_multiple(items)`: adds the items in order. */
    method AddMultiple(items: seq<string>)
      requires Valid()
      modifies this, bitArray
      ensures Valid() && bitArray == old(bitArray)
      ensures bitArray[..] == AddedAll(old(bitArray[..]), items)
      ensures itemsCount == old(itemsCount) + |items| && added == old(added) + items
      ensures forall s :: s in items ==> Member(bitArray[..], s)
      ensures builtFromCache == old(builtFromCache) && cacheTimestamp == old(cacheTimestamp)
    {
      ghost var before := bitArray[..];
      var i := 0;
      while i < |items|
        invariant 0 <= i <= |items|
        invariant Valid() && bitArray == old(bitArray)
        invariant bitArray[..] == AddedAll(before, items[..i])
        invariant itemsCount == old(itemsCount) + i && added == old(added) + items[..i]
        invariant builtFromCache == old(builtFromCache) && cacheTimestamp == old(cacheTimestamp)
      {
        Add(items[i]);
        assert items[..i + 1][..i] == items[..i];
        assert items[..i + 1] == items[..i] + [items[i]];
        i := i + 1;
      }
      assert items[..i] == items;
    }

    /** `is_cache_valid()`: the filter was built from the completed files and holds something. */
    function IsCacheValid(): (r: bool)
      reads this
      ensures r ==> builtFromCache && itemsCount > 0
      ensures !builtFromCache ==> !r
    {
      builtFromCache && itemsCount > 0
    }

    /** Under the invariant, the cache is valid exactly when it was built from the completed files
        and at least one name was added to it. */
    lemma CacheValidIffAdded()
      requires Valid()
      ensures IsCacheValid() <==> builtFromCache && added != []
    {
    }

    /** The reset at the start of `build_from_completed_files`: a fresh cleared array and a zero
        count. */
    method Clear()
      requires bitArraySize > 0
      modifies this
      ensures Valid() && fresh(bitArray) && bitArray[..] == Cleared(ByteCount(bitArraySize))
      ensures itemsCount == 0 && added == []
      ensures builtFromCache == old(builtFromCache) && cacheTimestamp == old(cacheTimestamp)
    {
      bitArray := new byte[ByteCount(bitArraySize)](_ => 0 as byte);
      itemsCount := 0;
      added := [];
    }

    /** `build_from_completed_files(file_items)` at time `now`: clears every bit and the count,
        then adds the full names of exactly the completed, disk-verified items, in order. */
    method BuildFromCompletedFiles(fileItems: seq<FileItem>, now: string) returns (info: BuildInfo)
      requires Valid()
      modifies this
      ensures Valid() && fresh(bitArray)
      ensures bitArray[..] == AddedAll(Cleared(ByteCount(bitArraySize)), CompletedNames(fileItems))
      ensures added == CompletedNames(fileItems) && itemsCount == |added|
      ensures forall i :: 0 <= i < |fileItems| && CompletedOnDisk(fileItems[i]) ==> Member(bitArray[..], fileItems[i].fullFilename)
      ensures builtFromCache && cacheTimestamp == Some(now)
      ensures IsCacheValid() <==> exists i :: 0 <= i < |fileItems| && CompletedOnDisk(fileItems[i])
      ensures info == BuildInfo(itemsCount, bitArraySize, hashFunctionsCount, itemsCount, now)
    {
      Clear();
      var completed := CollectCompleted(fileItems);
      AddMultiple(completed);
      MarkBuilt(now);
      info := BuildInfo(itemsCount, bitArraySize, hashFunctionsCount, |completed|, now);
      BuiltFrom(fileItems);
    }

    /** A filter holding exactly the collected names has every completed item as a member, and
        holds some name exactly when some item is completed. */
    lemma BuiltFrom(fileItems: seq<FileItem>)
      requires Valid() && added == CompletedNames(fileItems)
      ensures forall i :: 0 <= i < |fileItems| && CompletedOnDisk(fileItems[i]) ==> Member(bitArray[..], fileItems[i].fullFilename)
      ensures itemsCount > 0 <==> exists i :: 0 <= i < |fileItems| && CompletedOnDisk(fileItems[i])
    {
      NonEmptyIffCompleted(fileItems);
      CompletedNamesExactly(fileItems);
    }

    /** The end of `build_from_completed_files`: marks the filter as built at `now`. */
    method MarkBuilt(now: string)
      requires Valid()
      modifies this
      ensures Valid() && builtFromCache && cacheTimestamp == Some(now)
      ensures bitArray == old(bitArray) && itemsCount == old(itemsCount) && added == old(added)
    {
      builtFromCache := true;
      cacheTimestamp := Some(now);
    }

    /** The loop of `build_from_completed_files` that collects the names to add. */
    static method CollectCompleted(fileItems: seq<FileItem>) returns (completed: seq<string>)
      ensures completed == CompletedNames(fileItems)
    {
      completed := [];
      var i := 0;
      while i < |fileItems|
        invariant 0 <= i <= |fileItems|
        invariant completed == CompletedNames(fileItems[..i])
      {
        assert fileItems[..i + 1][..i] == fileItems[..i];
        if fileItems[i].status == Completed && fileItems[i].diskVerified {
          completed := completed + [fileItems[i].fullFilename];
        }
        i := i + 1;
      }
      assert fileItems[..i] == fileItems;
    }

    /** `fast_pre_filter(file_items)`: splits the items, in order and without loss, into those whose
        full name may be present and those whose name is certainly absent; no name added since
        the last clearing lands among the latter. */
    method FastPreFilter(fileItems: seq<FileItem>) returns (likelyExisting: seq<FileItem>, definitelyNew: seq<FileItem>)
      requires Valid()
      ensures likelyExisting == Select(fileItems, Membership(bitArray[..], fileItems), true)
      ensures definitelyNew == Select(fileItems, Membership(bitArray[..], fileItems), false)
      ensures multiset(likelyExisting) + multiset(definitelyNew) == multiset(fileItems)
      ensures forall x :: x in definitelyNew ==> x.fullFilename !in added
    {
      ghost var flags := Membership(bitArray[..], fileItems);
      likelyExisting, definitelyNew := [], [];
      var i := 0;
      while i < |fileItems|
        invariant 0 <= i <= |fileItems|
        invariant likelyExisting == Select(fileItems[..i], flags[..i], true)
        invariant definitelyNew == Select(fileItems[..i], flags[..i], false)
      {
        var item := fileItems[i];
        var maybe := Contains(item.fullFilename);
        assert maybe == flags[i];
        if maybe {
          SelectPrefix(fileItems, flags, false, i);
          SelectPrefix(fileItems, flags, true, i);
          likelyExisting := likelyExisting + [item];
        } else {
          SelectPrefix(fileItems, flags, true, i);
          SelectPrefix(fileItems, flags, false, i);
          definitelyNew := definitelyNew + [item];
        }
        i := i + 1;
      }
      assert fileItems[..i] == fileItems && flags[..i] == flags;
      SelectPartitions(fileItems, flags);
      NoAddedNameIsNew(fileItems);
    }

    /** An item whose name fails the membership test was never added. */
    lemma NoAddedNameIsNew(fileItems: seq<FileItem>)
      requires Valid()
      ensures forall x :: x in Select(fileItems, Membership(bitArray[..], fileItems), false) ==> x.fullFilename !in added
    {
      var flags := Membership(bitArray[..], fileItems);
      SelectFlags(fileItems, flags, false);
      forall x | x in Select(fileItems, flags, false)
        ensures x.fullFilename !in added
      {
        var j :| 0 <= j < |fileItems| && fileItems[j] == x && !flags[j];
        assert !Member(bitArray[..], x.fullFilename);
      }
    }
  }

  /** The integer part of the build report: items added, m, k, completed files counted. */
  datatype BuildInfo = BuildInfo(actualItems: nat, bitArraySize: nat, hashFunctions: nat,
                                 completedFilesCount: nat, buildTimestamp: string)
}

/** A device's channel list: an association list that resolves a tag by its first match. */
module ChannelMappings {
  import opened Basics
  import opened AsciiText

  datatype ChannelMapping = ChannelMapping(channelID: UInt64, tag: string)

  type Channels = seq<ChannelMapping>

  /** ResolveChannelIDByTag; None is its "mapping missing" error. */
  function Resolve(list: Channels, tag: string): Option<UInt64> {
    if list == [] then None
    else if Normalize(list[0].tag) == Normalize(tag) then Some(list[0].channelID)
    else Resolve(list[1..], tag)
  }

  /** The list the upsert leaves: the first entry with the tag replaced, or one appended. */
  function Put(list: Channels, mapping: ChannelMapping): Channels {
    if list == [] then [mapping]
    else if Normalize(list[0].tag) == Normalize(mapping.tag) then [mapping] + list[1..]
    else [list[0]] + Put(list[1..], mapping)
  }

  /** The map the list stands for, by normalized tag. */
  function TagMap(list: Channels): map<string, UInt64> {
    if list == [] then map[] else TagMap(list[1..])[Normalize(list[0].tag) := list[0].channelID]
  }

  ghost predicate Distinct(list: Channels) {
    forall i, j :: 0 <= i < j < |list| ==> Normalize(list[i].tag) != Normalize(list[j].tag)
  }

  lemma {:induction false} ResolveIsLookup(list: Channels, tag: string)
    ensures Resolve(list, tag) == if Normalize(tag) in TagMap(list) then Some(TagMap(list)[Normalize(tag)]) else None
  {
    if list != [] { ResolveIsLookup(list[1..], tag); }
  }

  lemma {:induction false} PutIsMapUpdate(list: Channels, mapping: ChannelMapping)
    ensures TagMap(Put(list, mapping)) == TagMap(list)[Normalize(mapping.tag) := mapping.channelID]
  {
    if list != [] && Normalize(list[0].tag) != Normalize(mapping.tag) {
      PutIsMapUpdate(list[1..], mapping);
      assert Put(list, mapping)[1..] == Put(list[1..], mapping);
    } else if list != [] {
      assert Put(list, mapping)[1..] == list[1..];
    } else {
      assert [mapping][1..] == [];
    }
  }

  /** As observed through resolution the upsert is a map update at the normalized tag, for
      every list (with repeated tags too) and every tag asked for. */
  lemma {:induction false} PutObserved(list: Channels, mapping: ChannelMapping, tag: string)
    ensures Resolve(Put(list, mapping), tag)
         == if Normalize(tag) == Normalize(mapping.tag) then Some(mapping.channelID) else Resolve(list, tag)
  {
    PutIsMapUpdate(list, mapping);
    ResolveIsLookup(list, tag);
    ResolveIsLookup(Put(list, mapping), tag);
  }

  /** The upsert as the scan performs it: the first entry of the tag is replaced in place. */
  lemma {:induction false} PutReplaces(list: Channels, i: nat, mapping: ChannelMapping)
    requires i < |list| && Normalize(list[i].tag) == Normalize(mapping.tag)
    requires forall j :: 0 <= j < i ==> Normalize(list[j].tag) != Normalize(mapping.tag)
    ensures Put(list, mapping) == list[i := mapping]
  {
    if i > 0 {
      PutReplaces(list[1..], i - 1, mapping);
      assert Normalize(list[0].tag) != Normalize(mapping.tag);
      assert list[i := mapping] == [list[0]] + list[1..][i - 1 := mapping];
    }
  }

  lemma {:induction false} PutAppends(list: Channels, mapping: ChannelMapping)
    requires forall j :: 0 <= j < |list| ==> Normalize(list[j].tag) != Normalize(mapping.tag)
    ensures Put(list, mapping) == list + [mapping]
  {
    if list != [] { PutAppends(list[1..], mapping); }
  }

  lemma {:induction false} PutTags(list: Channels, mapping: ChannelMapping)
    ensures |list| <= |Put(list, mapping)| <= |list| + 1
    ensures |Put(list, mapping)| == |list| + 1 <==> Normalize(mapping.tag) !in TagMap(list)
    ensures forall i :: 0 <= i < |list| ==> Normalize(Put(list, mapping)[i].tag) == Normalize(list[i].tag)
    ensures |Put(list, mapping)| > |list| ==> Put(list, mapping)[|list|] == mapping
  {
    if list != [] && Normalize(list[0].tag) != Normalize(mapping.tag) {
      PutTags(list[1..], mapping);
    }
  }

  lemma {:induction false} TagMapKeys(list: Channels, i: nat)
    requires i < |list|
    ensures Normalize(list[i].tag) in TagMap(list)
  {
    if i > 0 { TagMapKeys(list[1..], i - 1); }
  }

  /** A list with at most one entry a tag keeps that under any upsert. */
  lemma PutKeepsDistinct(list: Channels, mapping: ChannelMapping)
    requires Distinct(list)
    ensures Distinct(Put(list, mapping))
  {
    var put := Put(list, mapping);
    PutTags(list, mapping);
    forall i, j | 0 <= i < j < |put|
      ensures Normalize(put[i].tag) != Normalize(put[j].tag)
    {
      if j == |list| { TagMapKeys(list, i); }
    }
  }

  function Upsert(list: Channels, mappings: seq<ChannelMapping>): Channels
    decreases |mappings|
  {
    if mappings == [] then list else Upsert(Put(list, mappings[0]), mappings[1..])
  }

  /** The last mapping written under a normalized tag. */
  function LastWritten(mappings: seq<ChannelMapping>, tag: string): Option<UInt64> {
    if mappings == [] then None
    else
      var last := mappings[|mappings| - 1];
      if Normalize(last.tag) == Normalize(tag) then Some(last.channelID)
      else LastWritten(mappings[..|mappings| - 1], tag)
  }

  lemma {:induction false} UpsertSnoc(list: Channels, mappings: seq<ChannelMapping>, last: ChannelMapping)
    ensures Upsert(list, mappings + [last]) == Put(Upsert(list, mappings), last)
    decreases |mappings|
  {
    var all := mappings + [last];
    if mappings == [] {
      assert all[1..] == [];
    } else {
      assert all[1..] == mappings[1..] + [last];
      UpsertSnoc(Put(list, mappings[0]), mappings[1..], last);
    }
  }

  /** After any series of upserts a tag resolves to the last id written under it, or as
      before when none was; and a distinct list stays distinct. */
  lemma {:induction false} UpsertsObserved(list: Channels, mappings: seq<ChannelMapping>, tag: string)
    ensures Resolve(Upsert(list, mappings), tag)
         == if LastWritten(mappings, tag).Some? then LastWritten(mappings, tag) else Resolve(list, tag)
    ensures Distinct(list) ==> Distinct(Upsert(list, mappings))
    decreases |mappings|
  {
    if mappings != [] {
      var init, last := mappings[..|mappings| - 1], mappings[|mappings| - 1];
      assert mappings == init + [last];
      UpsertSnoc(list, init, last);
      UpsertsObserved(list, init, tag);
      PutObserved(Upsert(list, init), last, tag);
      if Distinct(list) { PutKeepsDistinct(Upsert(list, init), last); }
    }
  }
}

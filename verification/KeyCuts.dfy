/** When a cache key can belong to two devices: its text is cut at a bar in two ways. */
module KeyCuts {
  import opened Basics
  import opened AsciiText
  import opened DeviceCaching
  import opened ParserRegistry

  predicate StartsWithSpace(s: string) {
    s != "" && IsSpace(s[0])
  }

  predicate EndsWithSpace(s: string) {
    s != "" && IsSpace(s[|s| - 1])
  }

  /** The serial has a bar at i, a possible end of a model in front of it and a possible
      serial behind it. */
  predicate SerialCut(serial: string, i: nat) {
    var s := TrimSpace(serial);
    i < |s| && s[i] == '|' && ToLower(s[..i]) == s[..i] && !EndsWithSpace(s[..i]) && !StartsWithSpace(s[i + 1..])
  }

  predicate HasSerialCut(serial: string) {
    exists i :: 0 <= i < |TrimSpace(serial)| && SerialCut(serial, i)
  }

  /** The model has a bar at i, a possible model in front of it and a possible start of a
      serial behind it. */
  predicate ModelCut(model: string, i: nat) {
    var m := Normalize(model);
    i < |m| && m[i] == '|' && !EndsWithSpace(m[..i]) && !StartsWithSpace(m[i + 1..])
  }

  predicate HasModelCut(model: string) {
    exists i :: 0 <= i < |Normalize(model)| && ModelCut(model, i)
  }

  /** A device with another serial under the key of these three. */
  predicate IsRival(r: DeviceRecord, manufacturer: string, model: string, serial: string) {
    OwnKey(r) == Key(manufacturer, model, serial) && TrimSpace(r.serial) != TrimSpace(serial)
  }

  lemma NormalForm(s: string)
    ensures Tight(Normalize(s)) && ToLower(Normalize(s)) == Normalize(s)
    ensures Tight(TrimSpace(s))
  {
    var left, right := TrimSpaceSplits(s);
    LowerKeepsSpaces(TrimSpace(s));
  }

  lemma {:induction false} BarCounts(s: string, i: nat)
    requires i < |s| && s[i] == '|'
    ensures Bars(s) > 0
  {
    if i > 0 { BarCounts(s[1..], i - 1); }
  }

  // ---- A cut makes a rival ----

  lemma LowerJoin(s: string, t: string)
    requires ToLower(s) == s && ToLower(t) == t
    ensures ToLower(s + SEPARATOR + t) == s + SEPARATOR + t
  {
    var all := s + SEPARATOR + t;
    forall j | 0 <= j < |all| ensures LowerChar(all[j]) == all[j] {
      if j < |s| {
        assert all[j] == ToLower(s)[j];
      } else if j > |s| {
        assert all[j] == ToLower(t)[j - |s| - 1];
      }
    }
  }

  lemma NormalJoin(s: string, t: string)
    requires ToLower(s) == s && ToLower(t) == t && !StartsWithSpace(s) && !EndsWithSpace(t)
    ensures Normalize(s + SEPARATOR + t) == s + SEPARATOR + t
  {
    hide ToLower;
    LowerJoin(s, t);
    TightStays(s + SEPARATOR + t);
  }

  /** The end of the serial in front of the cut moves to the model. */
  lemma RivalOfSerialCut(manufacturer: string, model: string, serial: string, i: nat) returns (r: DeviceRecord)
    requires SerialCut(serial, i)
    ensures IsRival(r, manufacturer, model, serial) && r.channels == [] && r.updatedAt == 1
    ensures r.manufacturer == manufacturer
  {
    hide TrimSpace, ToLower;
    var s, mo := TrimSpace(serial), Normalize(model);
    var a, b := s[..i], s[i + 1..];
    NormalForm(serial);
    NormalForm(model);
    NormalJoin(mo, a);
    assert b != "" ==> b[|b| - 1] == s[|s| - 1];
    TightStays(b);
    r := DeviceRecord(0, 0, None, b, manufacturer, mo + SEPARATOR + a, [], 1);
    assert s == a + SEPARATOR + b;
    var front := Normalize(manufacturer) + SEPARATOR;
    assert OwnKey(r) == front + (mo + SEPARATOR + a) + SEPARATOR + b;
    assert Key(manufacturer, model, serial) == front + mo + SEPARATOR + (a + SEPARATOR + b);
  }

  /** The end of the model behind the cut moves to the serial. */
  lemma RivalOfModelCut(manufacturer: string, model: string, serial: string, i: nat) returns (r: DeviceRecord)
    requires ModelCut(model, i)
    ensures IsRival(r, manufacturer, model, serial) && r.channels == [] && r.updatedAt == 1
    ensures r.manufacturer == manufacturer
  {
    hide TrimSpace, ToLower;
    var s, mo := TrimSpace(serial), Normalize(model);
    var c, a := mo[..i], mo[i + 1..];
    NormalForm(serial);
    NormalForm(model);
    LowerPrefix(mo, i);
    TightStays(c);
    TightStays(a + SEPARATOR + s);
    r := DeviceRecord(0, 0, None, a + SEPARATOR + s, manufacturer, c, [], 1);
    assert mo == c + SEPARATOR + a;
    var front := Normalize(manufacturer) + SEPARATOR;
    assert OwnKey(r) == front + c + SEPARATOR + (a + SEPARATOR + s);
    assert Key(manufacturer, model, serial) == front + (c + SEPARATOR + a) + SEPARATOR + s;
  }

  lemma LowerPrefix(s: string, i: nat)
    requires ToLower(s) == s && i <= |s|
    ensures ToLower(s[..i]) == s[..i]
  {
    assert forall j :: 0 <= j < i ==> ToLower(s)[j] == s[j];
  }

  // ---- A rival shows a cut ----

  lemma PairEnds(manufacturer: string, model: string)
    ensures !EndsWithSpace(PairKey(manufacturer, model))
    ensures ToLower(PairKey(manufacturer, model)) == PairKey(manufacturer, model)
  {
    hide TrimSpace, ToLower;
    NormalForm(manufacturer);
    NormalForm(model);
    LowerJoin(Normalize(manufacturer), Normalize(model));
  }

  lemma LowerSlice(s: string, i: nat, j: nat)
    requires ToLower(s) == s && i <= j <= |s|
    ensures ToLower(s[i..j]) == s[i..j]
  {
    assert forall k :: i <= k < j ==> ToLower(s)[k] == s[k];
  }

  lemma LongerFrontCutsSerial(r: DeviceRecord, manufacturer: string, model: string, serial: string)
    requires OwnKey(r) == Key(manufacturer, model, serial)
    requires |PairKey(r.manufacturer, r.model)| > |PairKey(manufacturer, model)|
    ensures HasSerialCut(serial)
  {
    hide TrimSpace, ToLower, PairKey;
    var pair, rival := PairKey(manufacturer, model), PairKey(r.manufacturer, r.model);
    var s, s' := TrimSpace(serial), TrimSpace(r.serial);
    KeyText(manufacturer, model, serial);
    KeyText(r.manufacturer, r.model, r.serial);
    var key := pair + SEPARATOR + s;
    assert key == rival + SEPARATOR + s';
    var i := |rival| - |pair| - 1;
    assert s == key[|pair| + 1..] && s[..i] == key[|pair| + 1..|rival|] == rival[|pair| + 1..|rival|];
    assert s[i] == key[|rival|] == '|' && s[i + 1..] == key[|rival| + 1..] == s';
    PairEnds(r.manufacturer, r.model);
    LowerSlice(rival, |pair| + 1, |rival|);
    NormalForm(r.serial);
    assert i > 0 ==> s[i - 1] == rival[|rival| - 1];
    assert SerialCut(serial, i);
  }

  lemma KeyText(manufacturer: string, model: string, serial: string)
    ensures Key(manufacturer, model, serial) == PairKey(manufacturer, model) + SEPARATOR + TrimSpace(serial)
  {
  }

  lemma ShorterFrontCutsModel(r: DeviceRecord, manufacturer: string, model: string, serial: string)
    requires OwnKey(r) == Key(manufacturer, model, serial) && Bars(manufacturer) == 0
    requires |PairKey(r.manufacturer, r.model)| < |PairKey(manufacturer, model)|
    ensures HasModelCut(model)
  {
    hide TrimSpace, ToLower, Normalize;
    var pair, rival := PairKey(manufacturer, model), PairKey(r.manufacturer, r.model);
    var s, s' := TrimSpace(serial), TrimSpace(r.serial);
    KeyText(manufacturer, model, serial);
    KeyText(r.manufacturer, r.model, r.serial);
    var key := pair + SEPARATOR + s;
    assert key == rival + SEPARATOR + s';
    var m, mo, bar := Normalize(manufacturer), Normalize(model), |Normalize(r.manufacturer)|;
    assert pair[bar] == key[bar] == rival[bar] == '|';
    NormalizeKeepsBars(manufacturer);
    if bar < |m| {
      assert m[bar] == pair[bar];
      BarCounts(m, bar);
    }
    var i := |rival| - |m| - 1;
    assert mo == pair[|m| + 1..];
    assert mo[i] == pair[|rival|] == key[|rival|] == '|';
    PairEnds(r.manufacturer, r.model);
    NormalForm(r.serial);
    assert i > 0 ==> mo[i - 1] == pair[|rival| - 1] == key[|rival| - 1] == rival[|rival| - 1];
    assert i + 1 < |mo| ==> mo[i + 1] == pair[|rival| + 1] == key[|rival| + 1] == s'[0];
    assert ModelCut(model, i);
  }

  /** The exact condition: a bar-free manufacturer's key has a rival if and only if the serial
      or the model can be cut. */
  lemma RivalIffCut(manufacturer: string, model: string, serial: string)
    requires Bars(manufacturer) == 0
    ensures (exists r :: IsRival(r, manufacturer, model, serial)) <==> HasSerialCut(serial) || HasModelCut(model)
  {
    hide SerialCut, ModelCut, Key, OwnKey, PairKey;
    if r :| IsRival(r, manufacturer, model, serial) {
      if |PairKey(r.manufacturer, r.model)| > |PairKey(manufacturer, model)| {
        LongerFrontCutsSerial(r, manufacturer, model, serial);
      } else if |PairKey(r.manufacturer, r.model)| < |PairKey(manufacturer, model)| {
        ShorterFrontCutsModel(r, manufacturer, model, serial);
      } else {
        SameFront(r, manufacturer, model, serial);
      }
    }
    if HasSerialCut(serial) {
      var i :| 0 <= i < |TrimSpace(serial)| && SerialCut(serial, i);
      var r := RivalOfSerialCut(manufacturer, model, serial, i);
    }
    if HasModelCut(model) {
      var i :| 0 <= i < |Normalize(model)| && ModelCut(model, i);
      var r := RivalOfModelCut(manufacturer, model, serial, i);
    }
  }

  lemma SameFront(r: DeviceRecord, manufacturer: string, model: string, serial: string)
    requires OwnKey(r) == Key(manufacturer, model, serial)
    requires |PairKey(r.manufacturer, r.model)| == |PairKey(manufacturer, model)|
    ensures TrimSpace(r.serial) == TrimSpace(serial)
  {
    hide TrimSpace, PairKey;
    KeyText(manufacturer, model, serial);
    KeyText(r.manufacturer, r.model, r.serial);
    CutAtBar(PairKey(r.manufacturer, r.model), TrimSpace(r.serial), PairKey(manufacturer, model), TrimSpace(serial));
    var n := |PairKey(manufacturer, model)|;
    var key := Key(manufacturer, model, serial);
    assert PairKey(r.manufacturer, r.model) == key[..n] == PairKey(manufacturer, model);
  }

  /** A model without bars cannot be cut. */
  lemma NoBarNoModelCut(model: string)
    requires Bars(model) == 0
    ensures !HasModelCut(model)
  {
    NormalizeKeepsBars(model);
    if i :| 0 <= i < |Normalize(model)| && ModelCut(model, i) {
      BarCounts(Normalize(model), i);
      assert false;
    }
  }
}

/** Messages and their wire format: `_toZmsg` and `_fromZmsg`. */
module MessageCodec {
  import opened ByteStrings

  const METADATA_START := "__METADATA_START"
  const METADATA_END := "__METADATA_END"

  const REPLY_TO := "_replyTo"
  const CORRELATION_ID := "_correlationId"
  const FROM := "_from"
  const TO := "_to"
  const SUBJECT := "_subject"
  const TIMEOUT := "_timeout"

  type MetaData = map<string, string>

  datatype Message = Message(metaData: MetaData, userData: seq<string>)

  const EMPTY_MESSAGE := Message(map[], [])

  /** `std::map::emplace`: an existing key keeps its value. */
  function Emplace<V>(m: map<string, V>, k: string, v: V): map<string, V> {
    if k in m then m else m[k := v]
  }

  /** `it == end() || it->second == ""`, negated. */
  predicate HasField(m: Message, field: string) {
    field in m.metaData && m.metaData[field] != ""
  }

  // ---------------------------------------------------------------- encoding

  /** The key and value frames of the listed keys. */
  function PairFrames(m: MetaData, ks: seq<string>): seq<string>
    requires forall k | k in ks :: k in m
  {
    if ks == [] then [] else [ks[0], m[ks[0]]] + PairFrames(m, ks[1..])
  }

  /** A metadata section closed by `end`, and the user data behind it. */
  function Section(m: Message, end: string): seq<string> {
    PairFrames(m.metaData, SortedKeys(m.metaData.Keys)) + [end] + m.userData
  }

  function Encode(m: Message): seq<string> {
    [METADATA_START] + Section(m, METADATA_END)
  }

  // ---------------------------------------------------------------- decoding

  /** The metadata section starting here is not cut off right after a key. */
  predicate Complete(section: seq<string>, end: string) {
    section == [] || section[0] == end || (|section| >= 2 && Complete(section[2..], end))
  }

  predicate Decodable(frames: seq<string>) {
    frames != [] && frames[0] == METADATA_START ==> Complete(frames[1..], METADATA_END)
  }

  /** Reads pairs into `metaData` until `end` turns up in key position; the
      frames behind it are the user data. */
  function ParseSection(section: seq<string>, metaData: MetaData, end: string): Message
    requires Complete(section, end)
  {
    if section == [] then Message(metaData, [])
    else if section[0] == end then Message(metaData, section[1..])
    else ParseSection(section[2..], Emplace(metaData, section[0], section[1]), end)
  }

  function Decode(frames: seq<string>): Message
    requires Decodable(frames)
  {
    if frames != [] && frames[0] == METADATA_START
    then ParseSection(frames[1..], map[], METADATA_END)
    else Message(map[], frames)
  }

  // ------------------------------------------------- the format, declaratively

  /** `n` pairs, none with the end marker as key, then the end of the frames or
      the marker. */
  predicate HasPairs(section: seq<string>, n: nat, end: string) {
    && 2 * n <= |section|
    && (forall i | 0 <= i < n :: section[2 * i] != end)
    && (2 * n == |section| || section[2 * n] == end)
  }

  predicate Binds(m: MetaData, k: string, v: string) { k in m && m[k] == v }

  /** The `i`-th pair binds `k` to `v`, and no earlier pair has key `k`. */
  predicate FirstAt(section: seq<string>, i: nat, k: string, v: string)
    requires 2 * i + 1 < |section|
  {
    && section[2 * i] == k
    && section[2 * i + 1] == v
    && (forall j | 0 <= j < i :: section[2 * j] != k)
  }

  /** `k` is bound to `v` by the first of the `n` pairs that has key `k`. */
  predicate FirstBinding(section: seq<string>, n: nat, k: string, v: string)
    requires 2 * n <= |section|
  {
    exists i | 0 <= i < n :: FirstAt(section, i, k, v)
  }

  function Behind(section: seq<string>, n: nat): seq<string>
    requires 2 * n <= |section|
  {
    if 2 * n == |section| then [] else section[2 * n + 1..]
  }

  /** What it means for `m` to be the content of `section`, without reference
      to the order in which frames are popped. */
  ghost predicate SectionCarries(section: seq<string>, end: string, m: Message) {
    exists n: nat | HasPairs(section, n, end) ::
      && m.userData == Behind(section, n)
      && (forall k, v :: Binds(m.metaData, k, v) <==> FirstBinding(section, n, k, v))
  }

  ghost predicate Carries(frames: seq<string>, m: Message) {
    if frames == [] || frames[0] != METADATA_START
    then m == Message(map[], frames)
    else SectionCarries(frames[1..], METADATA_END, m)
  }

  lemma FirstAtShift(section: seq<string>, i: nat, k: string, v: string)
    requires 2 * i + 3 < |section| && section[0] != k
    ensures FirstAt(section, i + 1, k, v) <==> FirstAt(section[2..], i, k, v)
  {
    var tail := section[2..];
    assert forall j | 0 <= j <= i :: tail[2 * j] == section[2 * (j + 1)];
    if FirstAt(tail, i, k, v) {
      forall j | 0 <= j < i + 1 ensures section[2 * j] != k {
        if j > 0 { assert tail[2 * (j - 1)] != k; }
      }
    }
    if FirstAt(section, i + 1, k, v) {
      forall j | 0 <= j < i ensures tail[2 * j] != k { assert section[2 * (j + 1)] != k; }
    }
  }

  lemma FirstBindingStep(section: seq<string>, n: nat, k: string, v: string)
    requires 2 * n + 2 <= |section|
    ensures FirstBinding(section, n + 1, k, v) <==>
            (if k == section[0] then section[1] == v else FirstBinding(section[2..], n, k, v))
  {
    if k == section[0] {
      if section[1] == v { assert FirstAt(section, 0, k, v); }
      if FirstBinding(section, n + 1, k, v) {
        var i :| 0 <= i < n + 1 && FirstAt(section, i, k, v);
        assert section[2 * 0] == k;
      }
    } else {
      if FirstBinding(section, n + 1, k, v) {
        var i :| 0 <= i < n + 1 && FirstAt(section, i, k, v);
        FirstAtShift(section, i - 1, k, v);
      }
      if FirstBinding(section[2..], n, k, v) {
        var i :| 0 <= i < n && FirstAt(section[2..], i, k, v);
        FirstAtShift(section, i, k, v);
      }
    }
  }

  lemma {:induction false} ParseSectionMeaning(section: seq<string>, acc: MetaData, end: string) returns (n: nat)
    requires Complete(section, end)
    ensures HasPairs(section, n, end)
    ensures ParseSection(section, acc, end).userData == Behind(section, n)
    ensures forall k, v :: Binds(ParseSection(section, acc, end).metaData, k, v) <==>
                           if k in acc then Binds(acc, k, v) else FirstBinding(section, n, k, v)
    decreases |section|
  {
    if section == [] || section[0] == end {
      n := 0;
    } else {
      var acc' := Emplace(acc, section[0], section[1]);
      var tail := section[2..];
      var n' := ParseSectionMeaning(tail, acc', end);
      n := n' + 1;
      forall i | 0 <= i < n ensures section[2 * i] != end {
        if i > 0 { assert section[2 * i] == tail[2 * (i - 1)]; }
      }
      if 2 * n < |section| { assert section[2 * n] == tail[2 * n']; }
      forall k, v
        ensures Binds(ParseSection(section, acc, end).metaData, k, v) <==>
                if k in acc then Binds(acc, k, v) else FirstBinding(section, n, k, v)
      {
        FirstBindingStep(section, n', k, v);
        assert Binds(ParseSection(tail, acc', end).metaData, k, v) <==>
               if k in acc' then Binds(acc', k, v) else FirstBinding(tail, n', k, v);
      }
    }
  }

  lemma PairCountUnique(section: seq<string>, n: nat, n': nat, end: string)
    requires HasPairs(section, n, end) && HasPairs(section, n', end)
    ensures n == n'
  {
  }

  lemma SectionMeaning(section: seq<string>, end: string, m: Message)
    requires Complete(section, end)
    ensures m == ParseSection(section, map[], end) <==> SectionCarries(section, end, m)
    ensures end !in ParseSection(section, map[], end).metaData
  {
    var d := ParseSection(section, map[], end);
    var n := ParseSectionMeaning(section, map[], end);
    var v := if end in d.metaData then d.metaData[end] else "";
    assert Binds(d.metaData, end, v) <==> FirstBinding(section, n, end, v);
    if SectionCarries(section, end, m) {
      var n': nat :| HasPairs(section, n', end) && m.userData == Behind(section, n')
        && (forall k, v :: Binds(m.metaData, k, v) <==> FirstBinding(section, n', k, v));
      PairCountUnique(section, n, n', end);
      forall k, v ensures Binds(m.metaData, k, v) <==> Binds(d.metaData, k, v) {
        assert Binds(m.metaData, k, v) <==> FirstBinding(section, n, k, v);
      }
      SameBindingsEqual(m.metaData, d.metaData);
    }
  }

  lemma SameBindingsEqual(a: MetaData, b: MetaData)
    requires forall k, v :: Binds(a, k, v) <==> Binds(b, k, v)
    ensures a == b
  {
    forall k | k in a ensures k in b && b[k] == a[k] { assert Binds(a, k, a[k]); }
    forall k | k in b ensures k in a { assert Binds(b, k, b[k]); }
  }

  /** The popping decoder yields the one message its frames carry: first-wins
      pairs up to END in key position, everything after it as user data. */
  lemma DecodeMeaning(frames: seq<string>, m: Message)
    requires Decodable(frames)
    ensures m == Decode(frames) <==> Carries(frames, m)
    ensures METADATA_END !in Decode(frames).metaData
  {
    if frames != [] && frames[0] == METADATA_START {
      SectionMeaning(frames[1..], METADATA_END, m);
    }
  }

  lemma {:induction false} PairsComplete(section: seq<string>, n: nat, end: string)
    requires HasPairs(section, n, end)
    ensures Complete(section, end)
    decreases n
  {
    if n > 0 {
      var rest := section[2..];
      assert forall i | 0 <= i < n - 1 :: rest[2 * i] == section[2 * (i + 1)];
      PairsComplete(rest, n - 1, end);
    }
  }

  /** The frames that can be decoded are exactly those that carry a message. */
  lemma DecodableExact(frames: seq<string>)
    ensures Decodable(frames) <==> exists m :: Carries(frames, m)
  {
    if Decodable(frames) {
      DecodeMeaning(frames, Decode(frames));
    }
    if m :| Carries(frames, m) && frames != [] && frames[0] == METADATA_START {
      var n: nat :| HasPairs(frames[1..], n, METADATA_END);
      PairsComplete(frames[1..], n, METADATA_END);
    }
  }

  // -------------------------------------------------------------- round trip

  /** `acc` after emplacing the listed keys of `m`, none of which it has. */
  function WithKeys(acc: MetaData, m: MetaData, ks: seq<string>): MetaData
    requires forall k | k in ks :: k in m
    decreases |ks|
  {
    if ks == [] then acc else WithKeys(acc[ks[0] := m[ks[0]]], m, ks[1..])
  }

  lemma {:induction false} WithKeysMeaning(acc: MetaData, m: MetaData, ks: seq<string>)
    requires forall k | k in ks :: k in m && k !in acc
    requires Increasing(ks)
    ensures forall k :: k in WithKeys(acc, m, ks) <==> k in acc || k in ks
    ensures forall k | k in acc :: WithKeys(acc, m, ks)[k] == acc[k]
    ensures forall k | k in ks :: WithKeys(acc, m, ks)[k] == m[k]
    decreases |ks|
  {
    if ks != [] {
      IncreasingDistinct(ks);
      WithKeysMeaning(acc[ks[0] := m[ks[0]]], m, ks[1..]);
      assert ks == [ks[0]] + ks[1..];
    }
  }

  lemma {:induction false} ParsePairFrames(m: MetaData, ks: seq<string>, rest: seq<string>, acc: MetaData, end: string)
    requires forall k | k in ks :: k in m && k !in acc && k != end
    requires Increasing(ks) && Complete(rest, end)
    ensures Complete(PairFrames(m, ks) + rest, end)
    ensures ParseSection(PairFrames(m, ks) + rest, acc, end) == ParseSection(rest, WithKeys(acc, m, ks), end)
    decreases |ks|
  {
    if ks == [] {
      assert PairFrames(m, ks) + rest == rest;
    } else {
      var k := ks[0];
      var section := PairFrames(m, ks) + rest;
      IncreasingDistinct(ks);
      assert k in ks;
      assert section[0] == k && section[1] == m[k];
      assert section[2..] == PairFrames(m, ks[1..]) + rest;
      ParsePairFrames(m, ks[1..], rest, acc[k := m[k]], end);
    }
  }

  lemma {:induction false} PairFramesAppend(m: MetaData, a: seq<string>, b: seq<string>)
    requires forall k | k in a + b :: k in m
    ensures forall k | k in a :: k in m
    ensures forall k | k in b :: k in m
    ensures PairFrames(m, a + b) == PairFrames(m, a) + PairFrames(m, b)
    decreases |a|
  {
    forall k | k in a ensures k in m { assert k in a + b; }
    forall k | k in b ensures k in m { assert k in a + b; }
    if a == [] {
      assert a + b == b;
    } else {
      assert (a + b)[1..] == a[1..] + b;
      PairFramesAppend(m, a[1..], b);
    }
  }

  function KeysBelow(m: MetaData, bound: string): set<string> { set k | k in m && Less(k, bound) }

  function KeysAbove(m: MetaData, bound: string): set<string> { set k | k in m && Less(bound, k) }

  lemma SortedKeysSplit(m: MetaData, bound: string)
    requires bound in m
    ensures SortedKeys(m.Keys) == SortedKeys(KeysBelow(m, bound)) + [bound] + SortedKeys(KeysAbove(m, bound))
  {
    var lo, hi := SortedKeys(KeysBelow(m, bound)), SortedKeys(KeysAbove(m, bound));
    var ks := lo + [bound] + hi;
    forall i, j | 0 <= i < j < |ks| ensures Less(ks[i], ks[j]) {
      assert i < |lo| ==> ks[i] == lo[i] && ks[i] in lo;
      assert j > |lo| ==> ks[j] == hi[j - |lo| - 1] && ks[j] in hi;
      if i < |lo| < j { LessTransitive(ks[i], bound, ks[j]); }
    }
    forall k ensures k in ks <==> k in m.Keys {
      LessTotal(k, bound);
      assert k in ks <==> k in lo || k == bound || k in hi;
    }
    SortedKeysUnique(ks, m.Keys);
  }

  /** What is read back when the end marker is itself a metadata key: the
      section closes early and the remaining pairs turn into user data. */
  function CutAt(m: Message, end: string): Message
    requires end in m.metaData
  {
    Message(
      map k | k in KeysBelow(m.metaData, end) :: m.metaData[k],
      [m.metaData[end]] + PairFrames(m.metaData, SortedKeys(KeysAbove(m.metaData, end))) + [end] + m.userData)
  }

  function WithTrailing(m: Message, trailing: seq<string>): Message {
    Message(m.metaData, m.userData + trailing)
  }

  lemma AllKeysKept(m: MetaData)
    ensures WithKeys(map[], m, SortedKeys(m.Keys)) == m
  {
    WithKeysMeaning(map[], m, SortedKeys(m.Keys));
  }

  lemma ParseWholeSection(m: Message, trailing: seq<string>, end: string)
    requires end !in m.metaData
    ensures Complete(Section(m, end) + trailing, end)
    ensures ParseSection(Section(m, end) + trailing, map[], end) == WithTrailing(m, trailing)
  {
    var md, data := m.metaData, m.userData + trailing;
    var ks := SortedKeys(md.Keys);
    assert Section(m, end) + trailing == PairFrames(md, ks) + ([end] + data);
    assert ([end] + data)[1..] == data;
    ParsePairFrames(md, ks, [end] + data, map[], end);
    AllKeysKept(md);
  }

  lemma Regroup(a: seq<string>, end: string, v: string, h: seq<string>, d: seq<string>, t: seq<string>)
    ensures a + [end, v] + h + [end] + d + t == a + ([end] + ([v] + h + [end] + d + t))
  {
  }

  lemma SectionAtEnd(m: Message, trailing: seq<string>, end: string)
    requires end in m.metaData
    ensures Section(m, end) + trailing ==
            PairFrames(m.metaData, SortedKeys(KeysBelow(m.metaData, end)))
            + ([end] + (CutAt(m, end).userData + trailing))
  {
    var md := m.metaData;
    var lo, hi := SortedKeys(KeysBelow(md, end)), SortedKeys(KeysAbove(md, end));
    SortedKeysSplit(md, end);
    PairFramesAppend(md, lo + [end], hi);
    PairFramesAppend(md, lo, [end]);
    assert PairFrames(md, [end]) == [end, md[end]] by { assert [end][1..] == []; }
    Regroup(PairFrames(md, lo), end, md[end], PairFrames(md, hi), m.userData, trailing);
  }

  lemma KeysBelowKept(m: Message, end: string)
    requires end in m.metaData
    ensures WithKeys(map[], m.metaData, SortedKeys(KeysBelow(m.metaData, end))) == CutAt(m, end).metaData
  {
    WithKeysMeaning(map[], m.metaData, SortedKeys(KeysBelow(m.metaData, end)));
  }

  lemma ParseCutSection(m: Message, trailing: seq<string>, end: string)
    requires end in m.metaData
    ensures Complete(Section(m, end) + trailing, end)
    ensures ParseSection(Section(m, end) + trailing, map[], end) == WithTrailing(CutAt(m, end), trailing)
  {
    var lo := SortedKeys(KeysBelow(m.metaData, end));
    var data := CutAt(m, end).userData + trailing;
    SectionAtEnd(m, trailing, end);
    LessIrreflexive(end);
    assert ([end] + data)[1..] == data;
    ParsePairFrames(m.metaData, lo, [end] + data, map[], end);
    KeysBelowKept(m, end);
  }

  /** Encoding then decoding (frames appended on the way joining the user data)
      gives the message back exactly when the END marker is not one of its
      keys; when it is, this is what comes out instead. */
  lemma RoundTripExact(m: Message, trailing: seq<string>)
    ensures Decodable(Encode(m) + trailing)
    ensures Decode(Encode(m) + trailing) == WithTrailing(m, trailing) <==> METADATA_END !in m.metaData
    ensures METADATA_END in m.metaData ==>
              Decode(Encode(m) + trailing) == WithTrailing(CutAt(m, METADATA_END), trailing)
  {
    var section := Section(m, METADATA_END) + trailing;
    assert Encode(m) + trailing == [METADATA_START] + section;
    assert ([METADATA_START] + section)[1..] == section;
    if METADATA_END in m.metaData {
      ParseCutSection(m, trailing, METADATA_END);
      LessIrreflexive(METADATA_END);
    } else {
      ParseWholeSection(m, trailing, METADATA_END);
    }
  }

  lemma RoundTrip(m: Message)
    ensures Decodable(Encode(m))
    ensures Decode(Encode(m)) == m <==> METADATA_END !in m.metaData
    ensures METADATA_END in m.metaData ==> Decode(Encode(m)) == CutAt(m, METADATA_END)
  {
    RoundTripExact(m, []);
    assert Encode(m) + [] == Encode(m);
    assert WithTrailing(m, []) == m;
    if METADATA_END in m.metaData {
      assert WithTrailing(CutAt(m, METADATA_END), []) == CutAt(m, METADATA_END);
    }
  }

  /** Decoding is a normal form: a second trip over the wire changes nothing. */
  lemma DecodeNormalises(frames: seq<string>)
    requires Decodable(frames)
    ensures Decodable(Encode(Decode(frames)))
    ensures Decode(Encode(Decode(frames))) == Decode(frames)
  {
    DecodeMeaning(frames, Decode(frames));
    RoundTrip(Decode(frames));
  }

  /** Two messages without the END key share their frames only if they are equal. */
  lemma EncodeInjective(a: Message, b: Message)
    requires METADATA_END !in a.metaData && METADATA_END !in b.metaData
    ensures Encode(a) == Encode(b) <==> a == b
  {
    RoundTrip(a);
    RoundTrip(b);
  }

  /** Metadata filled by a sequence of `emplace` calls. */
  function EmplaceAll(acc: MetaData, pairs: seq<(string, string)>): MetaData
    decreases |pairs|
  {
    if pairs == [] then acc else EmplaceAll(Emplace(acc, pairs[0].0, pairs[0].1), pairs[1..])
  }

  /** With distinct keys, the metadata is the set of pairs emplaced. */
  lemma {:induction false} EmplaceAllMeaning(acc: MetaData, pairs: seq<(string, string)>, k: string, v: string)
    requires forall i, j | 0 <= i < j < |pairs| :: pairs[i].0 != pairs[j].0
    requires forall i | 0 <= i < |pairs| :: pairs[i].0 !in acc
    ensures Binds(EmplaceAll(acc, pairs), k, v) <==> Binds(acc, k, v) || (k, v) in pairs
    decreases |pairs|
  {
    if pairs != [] {
      var acc' := Emplace(acc, pairs[0].0, pairs[0].1);
      EmplaceAllMeaning(acc', pairs[1..], k, v);
      assert (k, v) in pairs <==> (k, v) == pairs[0] || (k, v) in pairs[1..];
    }
  }

  /** With distinct keys, the frames do not depend on the insertion order. */
  lemma InsertionOrderIrrelevant(p: seq<(string, string)>, q: seq<(string, string)>, data: seq<string>)
    requires forall x :: x in p <==> x in q
    requires forall i, j | 0 <= i < j < |p| :: p[i].0 != p[j].0
    requires forall i, j | 0 <= i < j < |q| :: q[i].0 != q[j].0
    ensures Encode(Message(EmplaceAll(map[], p), data)) == Encode(Message(EmplaceAll(map[], q), data))
  {
    forall k, v ensures Binds(EmplaceAll(map[], p), k, v) <==> Binds(EmplaceAll(map[], q), k, v) {
      EmplaceAllMeaning(map[], p, k, v);
      EmplaceAllMeaning(map[], q, k, v);
    }
    SameBindingsEqual(EmplaceAll(map[], p), EmplaceAll(map[], q));
  }

  // ----------------------------------------------------- the frames, exactly

  /** The `i`-th key frame and value frame behind a marker. */
  function KeyAt(frames: seq<string>, i: nat): string
    requires 2 * i + 1 < |frames|
  {
    frames[2 * i + 1]
  }

  function ValueAt(frames: seq<string>, i: nat): string
    requires 2 * i + 2 < |frames|
  {
    frames[2 * i + 2]
  }

  /** `start`, the pairs of frames in dictionary order of the keys, `end`, and the
      user data. */
  ghost predicate LayoutWith(frames: seq<string>, m: Message, start: string, end: string) {
    var n := |m.metaData|;
    && |frames| == 2 * n + 2 + |m.userData|
    && frames[0] == start && frames[2 * n + 1] == end && frames[2 * n + 2..] == m.userData
    && (forall i | 0 <= i < n :: Binds(m.metaData, KeyAt(frames, i), ValueAt(frames, i)))
    && (forall i, j | 0 <= i < j < n :: ComesFirst(KeyAt(frames, i), KeyAt(frames, j)))
  }

  ghost predicate Layout(frames: seq<string>, m: Message) {
    LayoutWith(frames, m, METADATA_START, METADATA_END)
  }

  lemma {:induction false} PairFramesAt(m: MetaData, ks: seq<string>, i: nat)
    requires i < |ks| && forall k | k in ks :: k in m
    ensures 2 * i + 1 < |PairFrames(m, ks)|
    ensures PairFrames(m, ks)[2 * i] == ks[i] && PairFrames(m, ks)[2 * i + 1] == m[ks[i]]
    decreases |ks|
  {
    if i > 0 { PairFramesAt(m, ks[1..], i - 1); }
  }

  lemma {:induction false} PairFramesLength(m: MetaData, ks: seq<string>)
    requires forall k | k in ks :: k in m
    ensures |PairFrames(m, ks)| == 2 * |ks|
    decreases |ks|
  {
    if ks != [] { PairFramesLength(m, ks[1..]); }
  }

  /** Strictly increasing keys of the map, as many as it has, are all of them. */
  lemma AllKeysListed(ks: seq<string>, keys: set<string>)
    requires Increasing(ks) && forall k | k in ks :: k in keys
    ensures |ks| <= |keys|
    ensures |ks| == |keys| <==> forall k | k in keys :: k in ks
  {
    var listed := set k | k in ks;
    IncreasingDistinct(ks);
    DistinctCount(ks);
    assert listed <= keys;
    assert |keys| == |listed| + |keys - listed| by { assert keys == listed + (keys - listed); }
    if |ks| == |keys| { assert keys - listed == {}; }
    if forall k | k in keys :: k in ks { assert keys - listed == {}; }
  }

  lemma {:induction false} DistinctCount(ks: seq<string>)
    requires forall i, j | 0 <= i < j < |ks| :: ks[i] != ks[j]
    ensures |set k | k in ks| == |ks|
    decreases |ks|
  {
    if ks != [] {
      var rest := ks[1..];
      DistinctCount(rest);
      assert (set k | k in ks) == (set k | k in rest) + {ks[0]};
      assert ks[0] !in rest;
    }
  }

  lemma SortedKeysCount(keys: set<string>)
    ensures |SortedKeys(keys)| == |keys|
  {
    AllKeysListed(SortedKeys(keys), keys);
  }

  /** The frames around the pairs. */
  lemma AroundPairs(start: string, pairs: seq<string>, end: string, data: seq<string>, n: nat)
    requires |pairs| == 2 * n
    ensures var frames := [start] + (pairs + [end] + data);
            && |frames| == 2 * n + 2 + |data|
            && frames[0] == start && frames[2 * n + 1] == end && frames[2 * n + 2..] == data
            && (forall j | 0 <= j < 2 * n :: frames[j + 1] == pairs[j])
  {
  }

  lemma PairLaidOut(m: Message, start: string, end: string, i: nat)
    requires i < |m.metaData|
    ensures var frames, ks := [start] + Section(m, end), SortedKeys(m.metaData.Keys);
            && 2 * i + 2 < |frames| && i < |ks|
            && KeyAt(frames, i) == ks[i] && ValueAt(frames, i) == m.metaData[ks[i]]
  {
    var ks := SortedKeys(m.metaData.Keys);
    SortedKeysCount(m.metaData.Keys);
    PairFramesLength(m.metaData, ks);
    PairFramesAt(m.metaData, ks, i);
    AroundPairs(start, PairFrames(m.metaData, ks), end, m.userData, |ks|);
  }

  lemma SectionLayout(m: Message, start: string, end: string)
    ensures LayoutWith([start] + Section(m, end), m, start, end)
  {
    var n, ks, frames := |m.metaData|, SortedKeys(m.metaData.Keys), [start] + Section(m, end);
    SortedKeysCount(m.metaData.Keys);
    PairFramesLength(m.metaData, ks);
    AroundPairs(start, PairFrames(m.metaData, ks), end, m.userData, n);
    forall i | 0 <= i < n ensures Binds(m.metaData, KeyAt(frames, i), ValueAt(frames, i)) {
      PairLaidOut(m, start, end, i);
    }
    forall i, j | 0 <= i < j < n ensures ComesFirst(KeyAt(frames, i), KeyAt(frames, j)) {
      PairLaidOut(m, start, end, i);
      PairLaidOut(m, start, end, j);
      LessMeaning(ks[i], ks[j]);
    }
  }

  /** The key frames are the keys in the order of the map. */
  lemma LayoutKeys(frames: seq<string>, m: Message, start: string, end: string, i: nat)
    requires LayoutWith(frames, m, start, end) && i < |m.metaData|
    ensures i < |SortedKeys(m.metaData.Keys)| && KeyAt(frames, i) == SortedKeys(m.metaData.Keys)[i]
  {
    var n := |m.metaData|;
    var ks := seq(n, k requires 0 <= k < n => KeyAt(frames, k));
    forall i, j | 0 <= i < j < |ks| ensures Less(ks[i], ks[j]) { LessMeaning(ks[i], ks[j]); }
    forall k | k in ks ensures k in m.metaData.Keys {
      var j :| 0 <= j < n && ks[j] == k;
      assert Binds(m.metaData, KeyAt(frames, j), ValueAt(frames, j));
    }
    AllKeysListed(ks, m.metaData.Keys);
    SortedKeysUnique(ks, m.metaData.Keys);
    assert ks[i] == KeyAt(frames, i);
  }

  lemma SameLayout(f: seq<string>, g: seq<string>, m: Message, start: string, end: string)
    requires LayoutWith(f, m, start, end) && LayoutWith(g, m, start, end)
    ensures f == g
  {
    var n := |m.metaData|;
    forall j | 0 <= j < |f| ensures f[j] == g[j] {
      if 0 < j <= 2 * n {
        var i := (j - 1) / 2;
        LayoutKeys(f, m, start, end, i);
        LayoutKeys(g, m, start, end, i);
        assert Binds(m.metaData, KeyAt(f, i), ValueAt(f, i)) && Binds(m.metaData, KeyAt(g, i), ValueAt(g, i));
        assert j == 2 * i + 1 || j == 2 * i + 2;
      } else if j >= 2 * n + 2 {
        assert f[j] == f[2 * n + 2..][j - (2 * n + 2)] && g[j] == g[2 * n + 2..][j - (2 * n + 2)];
      }
    }
  }

  /** These are the frames of a message, and no others: START, then each key and its
      value once, in dictionary order, then END, then the user data. */
  lemma EncodeExact(frames: seq<string>, m: Message)
    ensures frames == Encode(m) <==> Layout(frames, m)
  {
    SectionLayout(m, METADATA_START, METADATA_END);
    if Layout(frames, m) { SameLayout(frames, Encode(m), m, METADATA_START, METADATA_END); }
  }

  // --------------------------------------------------------- the frame list

  /** `zmsg_t`: a list of frames popped at the front and extended at the back. */
  class Zmsg {
    var frames: seq<string>

    constructor ()
      ensures frames == []
    {
      frames := [];
    }

    /** `zmsg_addstr` / `zmsg_addmem`. */
    method Add(frame: string)
      modifies this
      ensures frames == old(frames) + [frame]
    {
      frames := frames + [frame];
    }

    /** `zmsg_pop`; the source's null pointer is `ok == false`. */
    method Pop() returns (ok: bool, frame: string)
      modifies this
      ensures ok <==> old(frames) != []
      ensures ok ==> frame == old(frames)[0] && frames == old(frames)[1..]
      ensures !ok ==> frames == []
    {
      ok, frame := frames != [], "";
      if ok {
        frame := frames[0];
        frames := frames[1..];
      }
    }
  }

  /** The inner loop of `_fromZmsg`: pops pairs until the end marker is popped
      in key position or no frame is left. */
  method PopPairs(msg: Zmsg, end: string) returns (metaData: MetaData)
    requires Complete(msg.frames, end)
    modifies msg
    ensures Message(metaData, msg.frames) == ParseSection(old(msg.frames), map[], end)
  {
    metaData := map[];
    ghost var section := msg.frames;
    var ok, key := msg.Pop();
    if ok { assert [key] + msg.frames == section; }
    while ok && key != end
      invariant !ok ==> msg.frames == []
      invariant ok ==> Complete([key] + msg.frames, end)
      invariant ParseSection(section, map[], end) ==
                if ok then ParseSection([key] + msg.frames, metaData, end) else Message(metaData, [])
      decreases |msg.frames|, ok
    {
      ghost var left := [key] + msg.frames;
      var _, value := msg.Pop();
      assert left[1] == value && left[2..] == msg.frames;
      metaData := Emplace(metaData, key, value);
      ok, key := msg.Pop();
      if ok { assert [key] + msg.frames == left[2..]; }
    }
    if ok { assert ([key] + msg.frames)[1..] == msg.frames; }
  }

  /** The last loop of `_fromZmsg`: every frame left becomes user data. */
  method PopRest(msg: Zmsg) returns (userData: seq<string>)
    modifies msg
    ensures userData == old(msg.frames) && msg.frames == []
  {
    userData := [];
    var ok, item := msg.Pop();
    while ok
      invariant !ok ==> msg.frames == []
      invariant old(msg.frames) == userData + (if ok then [item] + msg.frames else [])
      decreases |msg.frames|, ok
    {
      userData := userData + [item];
      ok, item := msg.Pop();
    }
  }

  method FromZmsg(msg: Zmsg) returns (message: Message)
    requires Decodable(msg.frames)
    modifies msg
    ensures message == Decode(old(msg.frames))
    ensures msg.frames == []
  {
    message := EMPTY_MESSAGE;
    if |msg.frames| != 0 {
      var _, key := msg.Pop();
      if key == METADATA_START {
        var metaData := PopPairs(msg, METADATA_END);
        message := Message(metaData, message.userData);
      } else {
        message := Message(message.metaData, message.userData + [key]);
        assert [key] + msg.frames == old(msg.frames);
      }
      var userData := PopRest(msg);
      message := Message(message.metaData, message.userData + userData);
    }
  }

  lemma PairFramesSnoc(m: MetaData, ks: seq<string>, i: nat)
    requires i < |ks| && forall k | k in ks :: k in m
    ensures PairFrames(m, ks[..i + 1]) == PairFrames(m, ks[..i]) + [ks[i], m[ks[i]]]
  {
    assert ks[..i + 1] == ks[..i] + [ks[i]];
    PairFramesAppend(m, ks[..i], [ks[i]]);
    assert [ks[i]][1..] == [];
    assert PairFrames(m, [ks[i]]) == [ks[i], m[ks[i]]];
  }

  /** The loop of `_toZmsg` over the metadata, in the order of the map. */
  method AddPairs(msg: Zmsg, metaData: MetaData)
    modifies msg
    ensures msg.frames == old(msg.frames) + PairFrames(metaData, SortedKeys(metaData.Keys))
  {
    var keys := SortedKeys(metaData.Keys);
    for i := 0 to |keys|
      invariant msg.frames == old(msg.frames) + PairFrames(metaData, keys[..i])
    {
      ghost var done := PairFrames(metaData, keys[..i]);
      msg.Add(keys[i]);
      msg.Add(metaData[keys[i]]);
      PairFramesSnoc(metaData, keys, i);
      assert msg.frames == old(msg.frames) + (done + [keys[i], metaData[keys[i]]]);
    }
    assert keys[..|keys|] == keys;
  }

  /** The loop of `_toZmsg` over the user data. */
  method AddRest(msg: Zmsg, userData: seq<string>)
    modifies msg
    ensures msg.frames == old(msg.frames) + userData
  {
    for i := 0 to |userData|
      invariant msg.frames == old(msg.frames) + userData[..i]
    {
      msg.Add(userData[i]);
    }
    assert userData[..|userData|] == userData;
  }

  method AddSection(msg: Zmsg, message: Message, end: string)
    modifies msg
    ensures msg.frames == old(msg.frames) + Section(message, end)
  {
    AddPairs(msg, message.metaData);
    msg.Add(end);
    AddRest(msg, message.userData);
  }

  method ToZmsg(message: Message) returns (msg: Zmsg)
    ensures fresh(msg)
    ensures msg.frames == Encode(message) && Layout(msg.frames, message)
  {
    msg := new Zmsg();
    msg.Add(METADATA_START);
    AddSection(msg, message, METADATA_END);
    EncodeExact(msg.frames, message);
  }
}

/**
 * Handles of fallback decisions and their options. SHA-256, cut to 20 hex digits, is a parameter `digest`; what is
 * proved is that the bytes it is given determine the components, and what that means for the options of a decision.
 */
module DecisionHandles {
  import opened Prelude

  type Byte = b: int | 0 <= b < 256

  type Bytes = seq<Byte>

  type Digest = Bytes -> Bytes

  const LENGTHS: nat := 0x1_0000_0000_0000_0000

  // ----- the length-prefixed encoding ---------------------------------------------------------------------

  /** The big-endian digits of a length, the most significant first. */
  function BigEndian(n: nat, width: nat): (r: Bytes)
    ensures |r| == width
  {
    if width == 0 then [] else BigEndian(n / 256, width - 1) + [n % 256]
  }

  function FromBigEndian(bytes: Bytes): nat {
    if bytes == [] then 0 else FromBigEndian(bytes[..|bytes| - 1]) * 256 + bytes[|bytes| - 1]
  }

  function Power(width: nat): nat {
    if width == 0 then 1 else 256 * Power(width - 1)
  }

  lemma {:induction false} BigEndianRoundTrip(n: nat, width: nat)
    requires n < Power(width)
    ensures FromBigEndian(BigEndian(n, width)) == n
  {
    if width > 0 {
      BigEndianRoundTrip(n / 256, width - 1);
      assert BigEndian(n, width)[..width - 1] == BigEndian(n / 256, width - 1);
    }
  }

  lemma EightBytesHoldLengths()
    ensures Power(8) == LENGTHS
  {
    assert Power(2) == 65536;
    assert Power(4) == 65536 * 65536;
    assert Power(6) == 65536 * 65536 * 65536;
  }

  /** The eight bytes of a length: the first counts 2^56, the last counts one. */
  lemma LengthBytes(n: nat)
    requires n < 18_446_744_073_709_551_616
    ensures var r := BigEndian(n, 8);
            n == (r[0] as int) * 72_057_594_037_927_936 + (r[1] as int) * 281_474_976_710_656 + (r[2] as int) * 1_099_511_627_776 + (r[3] as int) * 4_294_967_296
                 + (r[4] as int) * 16_777_216 + (r[5] as int) * 65_536 + (r[6] as int) * 256 + (r[7] as int)
  {
    var r := BigEndian(n, 8);
    assert r[..7] == BigEndian(n / 256, 7);
    assert r[..6] == r[..7][..6] == BigEndian(n / 256 / 256, 6);
    assert r[..5] == r[..6][..5] == BigEndian(n / 256 / 256 / 256, 5);
    assert r[..4] == r[..5][..4] == BigEndian(n / 256 / 256 / 256 / 256, 4);
    assert r[..3] == r[..4][..3] == BigEndian(n / 256 / 256 / 256 / 256 / 256, 3);
    assert r[..2] == r[..3][..2] == BigEndian(n / 256 / 256 / 256 / 256 / 256 / 256, 2);
    assert r[..1] == r[..2][..1] == BigEndian(n / 256 / 256 / 256 / 256 / 256 / 256 / 256, 1);
  }

  /** What the hasher is fed: each component after its length in eight bytes. */
  function Encode(components: seq<Bytes>): Bytes {
    if components == [] then [] else BigEndian(|components[0]|, 8) + components[0] + Encode(components[1..])
  }

  function Decode(bytes: Bytes): Option<seq<Bytes>>
    decreases |bytes|
  {
    if bytes == [] then Some([])
    else if |bytes| < 8 then None
    else
      var length, rest := FromBigEndian(bytes[..8]), bytes[8..];
      if |rest| < length then None
      else
        var more := Decode(rest[length..]);
        if more.None? then None else Some([rest[..length]] + more.value)
  }

  /** Lengths are 64-bit numbers. */
  ghost predicate Sized(components: seq<Bytes>) {
    forall i :: 0 <= i < |components| ==> |components[i]| < LENGTHS
  }

  lemma LengthRoundTrip(n: nat)
    requires n < LENGTHS
    ensures FromBigEndian(BigEndian(n, 8)) == n
  {
    EightBytesHoldLengths();
    BigEndianRoundTrip(n, 8);
  }

  lemma DecodingTakesComponent(first: Bytes, more: Bytes)
    requires |first| < LENGTHS
    ensures Decode(BigEndian(|first|, 8) + first + more)
         == if Decode(more).None? then None else Some([first] + Decode(more).value)
  {
    hide BigEndian, FromBigEndian, Decode;
    LengthRoundTrip(|first|);
    var prefix := BigEndian(|first|, 8);
    var bytes := prefix + first + more;
    assert bytes == prefix + (first + more);
    DecodeStep(bytes, first, more);
  }

  lemma DecodeStep(bytes: Bytes, first: Bytes, more: Bytes)
    requires |bytes| >= 8 && FromBigEndian(bytes[..8]) == |first| && bytes[8..] == first + more
    ensures Decode(bytes) == if Decode(more).None? then None else Some([first] + Decode(more).value)
  {
    hide FromBigEndian;
    assert (first + more)[..|first|] == first && (first + more)[|first|..] == more;
  }

  lemma {:induction false} EncodingRoundTrip(components: seq<Bytes>)
    requires Sized(components)
    ensures Decode(Encode(components)) == Some(components)
  {
    hide BigEndian, Decode;
    if components == [] {
      NothingDecodes();
    } else {
      DecodingTakesComponent(components[0], Encode(components[1..]));
      EncodingRoundTrip(components[1..]);
      assert components == [components[0]] + components[1..];
    }
  }

  lemma NothingDecodes()
    ensures Decode([]) == Some([])
  {
  }

  /** Different component lists feed the hasher different bytes. */
  lemma EncodingIsInjective(a: seq<Bytes>, b: seq<Bytes>)
    requires Sized(a) && Sized(b) && Encode(a) == Encode(b)
    ensures a == b
  {
    EncodingRoundTrip(a);
    EncodingRoundTrip(b);
  }

  // ----- handles ------------------------------------------------------------------------------------------

  function ContextualHandle(digest: Digest, prefix: Bytes, components: seq<Bytes>): Bytes {
    prefix + ['-' as int] + digest(Encode(components))
  }

  ghost predicate CollisionFree(digest: Digest) {
    forall a: Bytes, b: Bytes :: digest(a) == digest(b) ==> a == b
  }

  lemma HandlesIdentifyComponents(digest: Digest, prefix: Bytes, a: seq<Bytes>, b: seq<Bytes>)
    requires CollisionFree(digest) && Sized(a) && Sized(b)
    ensures ContextualHandle(digest, prefix, a) == ContextualHandle(digest, prefix, b) <==> a == b
  {
    var x, y := digest(Encode(a)), digest(Encode(b));
    if prefix + ['-' as int] + x == prefix + ['-' as int] + y {
      assert x == (prefix + ['-' as int] + x)[|prefix| + 1..];
      assert y == (prefix + ['-' as int] + y)[|prefix| + 1..];
      EncodingIsInjective(a, b);
    }
  }

  // ----- options ------------------------------------------------------------------------------------------

  datatype Choice = Choice(id: Bytes, name: Bytes, description: Bytes)

  /** The options of the one question of a decision, and which of them is recommended. */
  datatype Card = Card(options: seq<Choice>, recommendation: Option<Bytes>)

  const OPTION: Bytes := [111, 112, 116, 105, 111, 110]

  function OptionHandle(digest: Digest, decision: Bytes, id: Bytes): Bytes {
    ContextualHandle(digest, OPTION, [decision, id])
  }

  const DECISION: Bytes := [100, 101, 99, 105, 115, 105, 111, 110]

  /** The handle of a decision: of its pending id in its workspace, generation, thread and turn. */
  function DecisionHandle(digest: Digest, pending: Bytes, workspace: Bytes, generation: Bytes, thread: Bytes, turn: Bytes): Bytes {
    ContextualHandle(digest, DECISION, [pending, workspace, generation, thread, turn])
  }

  /** `option-` and the digest of the decision and the id, each after its length. */
  lemma OptionHandleIs(digest: Digest, decision: Bytes, id: Bytes)
    ensures OptionHandle(digest, decision, id)
         == ['o' as int, 'p' as int, 't' as int, 'i' as int, 'o' as int, 'n' as int, '-' as int]
            + digest(BigEndian(|decision|, 8) + decision + BigEndian(|id|, 8) + id)
  {
    hide BigEndian;
    assert [decision, id][1..] == [id];
    assert Encode([id]) == BigEndian(|id|, 8) + id;
    assert Encode([decision, id]) == BigEndian(|decision|, 8) + decision + BigEndian(|id|, 8) + id;
  }

  /** `decision-` and a digest that tells apart every part of the context the decision was asked in. */
  lemma DecisionHandleIs(digest: Digest, a: seq<Bytes>, b: seq<Bytes>)
    requires CollisionFree(digest) && |a| == 5 && |b| == 5 && Sized(a) && Sized(b)
    ensures var x, y := DecisionHandle(digest, a[0], a[1], a[2], a[3], a[4]), DecisionHandle(digest, b[0], b[1], b[2], b[3], b[4]);
            && (x == y <==> a == b)
            && |x| >= 9 && x[..9] == ['d' as int, 'e' as int, 'c' as int, 'i' as int, 's' as int, 'i' as int, 'o' as int, 'n' as int, '-' as int]
  {
    assert a == [a[0], a[1], a[2], a[3], a[4]] && b == [b[0], b[1], b[2], b[3], b[4]];
    HandlesIdentifyComponents(digest, DECISION, a, b);
    hide Encode;
  }

  ghost predicate DistinctIds(options: seq<Choice>) {
    forall i, j :: 0 <= i < j < |options| ==> options[i].id != options[j].id
  }

  ghost predicate Recommends(card: Card, i: int) {
    0 <= i < |card.options| && card.recommendation == Some(card.options[i].id)
  }

  /** What a card that passed validation satisfies: a recommendation names one of two or three options. */
  ghost predicate ValidCard(card: Card) {
    && 2 <= |card.options| <= 3
    && (card.recommendation.Some? ==> exists i :: Recommends(card, i))
    && forall i :: 0 <= i < |card.options| ==> |card.options[i].id| < LENGTHS
  }

  /** The option list of `register`: contextual ids, everything else as it was. */
  ghost predicate Relabelled(digest: Digest, decision: Bytes, before: seq<Choice>, after: seq<Choice>) {
    && |after| == |before|
    && forall i :: 0 <= i < |before| ==> after[i] == before[i].(id := OptionHandle(digest, decision, before[i].id))
  }

  method ContextualOptions(digest: Digest, decision: Bytes, card: Card) returns (contextual: Card)
    ensures Relabelled(digest, decision, card.options, contextual.options)
    ensures contextual.recommendation.Some? <==> exists i :: Recommends(card, i)
    ensures contextual.recommendation.Some? ==> contextual.recommendation == Some(OptionHandle(digest, decision, card.recommendation.value))
  {
    var options: seq<Choice> := [];
    var recommendation: Option<Bytes> := None;
    for i := 0 to |card.options|
      invariant Relabelled(digest, decision, card.options[..i], options)
      invariant recommendation.Some? <==> exists j :: j < i && Recommends(card, j)
      invariant recommendation.Some? ==> card.recommendation.Some?
      invariant recommendation.Some? ==> recommendation == Some(OptionHandle(digest, decision, card.recommendation.value))
    {
      var original := card.options[i].id;
      var handle := OptionHandle(digest, decision, original);
      options := options + [card.options[i].(id := handle)];
      if card.recommendation == Some(original) {
        recommendation := Some(handle);
        assert Recommends(card, i);
      }
    }
    assert card.options[..|card.options|] == card.options;
    contextual := Card(options, recommendation);
  }

  /**
   * With a collision-free digest and distinct ids, a registered card keeps order, labels and descriptions, its option
   * ids are distinct, and it recommends exactly the option it recommended before.
   */
  lemma RegisteredCardMeansTheSame(digest: Digest, decision: Bytes, card: Card, contextual: Card)
    requires CollisionFree(digest) && |decision| < LENGTHS && ValidCard(card) && DistinctIds(card.options)
    requires Relabelled(digest, decision, card.options, contextual.options)
    requires contextual.recommendation.Some? <==> exists i :: Recommends(card, i)
    requires contextual.recommendation.Some? ==>
               contextual.recommendation == Some(OptionHandle(digest, decision, card.recommendation.value))
    ensures forall i :: 0 <= i < |card.options| ==>
              contextual.options[i].name == card.options[i].name && contextual.options[i].description == card.options[i].description
    ensures DistinctIds(contextual.options)
    ensures contextual.recommendation.None? <==> card.recommendation.None?
    ensures forall i :: Recommends(contextual, i) <==> Recommends(card, i)
  {
    forall i, j | 0 <= i < |card.options| && 0 <= j < |card.options|
      ensures contextual.options[i].id == contextual.options[j].id <==> card.options[i].id == card.options[j].id {
      SameHandleSameId(digest, decision, card.options[i].id, card.options[j].id);
    }
    if card.recommendation.Some? {
      var k :| Recommends(card, k);
      assert contextual.recommendation == Some(contextual.options[k].id);
      forall i | 0 <= i < |card.options| ensures Recommends(contextual, i) <==> Recommends(card, i) {
        SameHandleSameId(digest, decision, card.options[i].id, card.options[k].id);
      }
    }
  }

  lemma SameHandleSameId(digest: Digest, decision: Bytes, a: Bytes, b: Bytes)
    requires CollisionFree(digest) && |decision| < LENGTHS && |a| < LENGTHS && |b| < LENGTHS
    ensures OptionHandle(digest, decision, a) == OptionHandle(digest, decision, b) <==> a == b
  {
    HandlesIdentifyComponents(digest, OPTION, [decision, a], [decision, b]);
    assert [decision, a][1] == a && [decision, b][1] == b;
  }

  // ----- options in a completed output --------------------------------------------------------------------

  datatype Malformed = Malformed

  /** `bounded` and the length of the description, which look at characters; redaction changes texts, not ids. */
  datatype Checks = Checks(acceptable: Choice -> bool, shown: Bytes -> Bytes)

  ghost predicate DistinctLabels(options: seq<Choice>) {
    forall i, j :: 0 <= i < j < |options| ==> options[i].name != options[j].name
  }

  ghost predicate AllAcceptable(checks: Checks, options: seq<Choice>) {
    forall i :: 0 <= i < |options| ==> checks.acceptable(options[i])
  }

  /** The ids that stand for the wire ids, and nothing else. */
  ghost predicate Maps(opaqueId: Digest, options: seq<Choice>, mapped: map<Bytes, Bytes>) {
    && (forall i :: 0 <= i < |options| ==> options[i].id in mapped)
    && (forall id :: id in mapped ==> mapped[id] == opaqueId(id) && exists i :: 0 <= i < |options| && options[i].id == id)
  }

  ghost predicate Shown(opaqueId: Digest, checks: Checks, options: seq<Choice>, views: seq<Choice>) {
    && |views| == |options|
    && forall i :: 0 <= i < |options| ==>
         views[i] == Choice(opaqueId(options[i].id), checks.shown(options[i].name), checks.shown(options[i].description))
  }

  /** Accepts exactly the lists of acceptable options with distinct ids and distinct labels. */
  method MapOptions(opaqueId: Digest, checks: Checks, options: seq<Choice>)
    returns (r: Result<(seq<Choice>, map<Bytes, Bytes>), Malformed>)
    ensures r.Ok? <==> ListAccepted(checks, options)
    ensures r.Ok? ==> Shown(opaqueId, checks, options, r.value.0) && Maps(opaqueId, options, r.value.1)
  {
    hide ListAccepted, Shown, Maps, Seen;
    var ids: set<Bytes> := {};
    var labels: set<Bytes> := {};
    var views: seq<Choice> := [];
    var mapped: map<Bytes, Bytes> := map[];
    NothingMapped(opaqueId, checks);
    assert options[..0] == [];
    for i := 0 to |options|
      invariant Seen(options[..i], ids, labels)
      invariant ListAccepted(checks, options[..i])
      invariant Shown(opaqueId, checks, options[..i], views)
      invariant Maps(opaqueId, options[..i], mapped)
    {
      var option := options[i];
      NextOption(checks, options, i, ids, labels);
      if !checks.acceptable(option) || option.id in ids || option.name in labels {
        return Err(Malformed);
      }
      NextMapped(opaqueId, checks, options[..i], option, views, mapped);
      assert options[..i + 1] == options[..i] + [option];
      ids, labels := ids + {option.id}, labels + {option.name};
      mapped := mapped[option.id := opaqueId(option.id)];
      views := views + [Choice(opaqueId(option.id), checks.shown(option.name), checks.shown(option.description))];
    }
    assert options[..|options|] == options;
    r := Ok((views, mapped));
  }

  function IdsOf(options: seq<Choice>): set<Bytes> {
    set option | option in options :: option.id
  }

  function NamesOf(options: seq<Choice>): set<Bytes> {
    set option | option in options :: option.name
  }

  ghost predicate Seen(options: seq<Choice>, ids: set<Bytes>, labels: set<Bytes>) {
    ids == IdsOf(options) && labels == NamesOf(options)
  }

  ghost predicate ListAccepted(checks: Checks, options: seq<Choice>) {
    AllAcceptable(checks, options) && DistinctIds(options) && DistinctLabels(options)
  }

  lemma NothingMapped(opaqueId: Digest, checks: Checks)
    ensures Seen([], {}, {}) && ListAccepted(checks, [])
    ensures Shown(opaqueId, checks, [], []) && Maps(opaqueId, [], map[])
  {
  }

  lemma NextMapped(
    opaqueId: Digest, checks: Checks, options: seq<Choice>, option: Choice, views: seq<Choice>, mapped: map<Bytes, Bytes>)
    requires Shown(opaqueId, checks, options, views) && Maps(opaqueId, options, mapped)
    ensures Shown(opaqueId, checks, options + [option],
                  views + [Choice(opaqueId(option.id), checks.shown(option.name), checks.shown(option.description))])
    ensures Maps(opaqueId, options + [option], mapped[option.id := opaqueId(option.id)])
  {
    var more := options + [option];
    var mapped' := mapped[option.id := opaqueId(option.id)];
    forall id | id in mapped' ensures exists i :: 0 <= i < |more| && more[i].id == id {
      if id in mapped {
        var i :| 0 <= i < |options| && options[i].id == id;
        assert more[i].id == id;
      } else {
        assert more[|options|].id == id;
      }
    }
  }

  lemma IdSeenBefore(options: seq<Choice>, i: nat)
    requires i < |options| && options[i].id in IdsOf(options[..i])
    ensures !DistinctIds(options)
  {
    var other :| other in options[..i] && other.id == options[i].id;
    var j :| 0 <= j < i && options[..i][j] == other;
    assert options[j].id == options[i].id;
  }

  lemma NameSeenBefore(options: seq<Choice>, i: nat)
    requires i < |options| && options[i].name in NamesOf(options[..i])
    ensures !DistinctLabels(options)
  {
    var other :| other in options[..i] && other.name == options[i].name;
    var j :| 0 <= j < i && options[..i][j] == other;
    assert options[j].name == options[i].name;
  }

  lemma NewIdStaysDistinct(front: seq<Choice>, option: Choice)
    requires DistinctIds(front) && option.id !in IdsOf(front)
    ensures DistinctIds(front + [option]) && IdsOf(front + [option]) == IdsOf(front) + {option.id}
  {
    var all := front + [option];
    forall j | 0 <= j < |front| ensures all[j].id != option.id {
      assert front[j] in front;
    }
  }

  lemma NewNameStaysDistinct(front: seq<Choice>, option: Choice)
    requires DistinctLabels(front) && option.name !in NamesOf(front)
    ensures DistinctLabels(front + [option]) && NamesOf(front + [option]) == NamesOf(front) + {option.name}
  {
    var all := front + [option];
    forall j | 0 <= j < |front| ensures all[j].name != option.name {
      assert front[j] in front;
    }
  }

  /** The next option is refused exactly when some condition on the list fails within the options up to it. */
  lemma NextOption(checks: Checks, options: seq<Choice>, i: nat, ids: set<Bytes>, labels: set<Bytes>)
    requires i < |options| && Seen(options[..i], ids, labels) && ListAccepted(checks, options[..i])
    ensures var option := options[i];
            if !checks.acceptable(option) || option.id in ids || option.name in labels then !ListAccepted(checks, options)
            else
              && Seen(options[..i + 1], ids + {option.id}, labels + {option.name})
              && ListAccepted(checks, options[..i + 1])
  {
    hide DistinctIds, DistinctLabels, IdsOf, NamesOf;
    var front, option := options[..i], options[i];
    if option.id in ids {
      IdSeenBefore(options, i);
    } else if option.name in labels {
      NameSeenBefore(options, i);
    } else {
      NewIdStaysDistinct(front, option);
      NewNameStaysDistinct(front, option);
      assert options[..i + 1] == front + [option];
    }
  }
}

/** BubbleBarUpdate: one change to the bubble bar, sent from the shell to the
    launcher. Each field records one kind of change; `expanded` is the new
    value whose change `expandedChanged` reports. */
module BubbleBarUpdate {
  import opened Wrappers
  import opened Parcel

  datatype BubbleBarUpdate = BubbleBarUpdate(
    expandedChanged: bool,
    expanded: bool,
    selectedBubbleKey: Option<string>,
    addedBubble: Option<BubbleInfo>,
    updatedBubble: Option<BubbleInfo>,
    suppressedBubbleKey: Option<string>,
    unsupressedBubbleKey: Option<string>,
    removedBubbles: seq<Option<RemovedBubble>>,
    bubbleKeysInOrder: seq<Option<string>>,
    currentBubbleList: seq<Option<BubbleInfo>>)

  /** Every list is small enough for its size to be a Java `int`. */
  predicate WellSized(u: BubbleBarUpdate) {
    && |u.removedBubbles| <= INT32_MAX
    && |u.bubbleKeysInOrder| <= INT32_MAX
    && |u.currentBubbleList| <= INT32_MAX
  }

  /** The default constructor: no change recorded, lists empty but present. */
  function Empty(): (u: BubbleBarUpdate)
    ensures !u.expandedChanged && !u.expanded
    ensures u.selectedBubbleKey.None? && u.addedBubble.None? && u.updatedBubble.None?
    ensures u.suppressedBubbleKey.None? && u.unsupressedBubbleKey.None?
    ensures u.removedBubbles == [] && u.bubbleKeysInOrder == [] && u.currentBubbleList == []
  {
    BubbleBarUpdate(false, false, None, None, None, None, None, [], [], [])
  }

  /** `anythingChanged()`. */
  predicate AnythingChanged(u: BubbleBarUpdate) {
    || u.expandedChanged
    || u.selectedBubbleKey != None
    || u.addedBubble != None
    || u.updatedBubble != None
    || u.removedBubbles != []
    || u.bubbleKeysInOrder != []
    || u.suppressedBubbleKey != None
    || u.unsupressedBubbleKey != None
    || u.currentBubbleList != []
  }

  /** Nothing has changed exactly when the update agrees with a freshly
      constructed one except, possibly, in `expanded`. */
  lemma AnythingChangedIffNotDefault(u: BubbleBarUpdate)
    ensures !AnythingChanged(u) <==> u.(expanded := false) == Empty()
    ensures !AnythingChanged(Empty())
  {
  }

  /** `expanded` alone is not a change; setting any other field is. */
  lemma WhichFieldsCount(u: BubbleBarUpdate, expanded: bool, key: string, info: BubbleInfo,
                         removed: Option<RemovedBubble>, orderedKey: Option<string>, current: Option<BubbleInfo>)
    ensures AnythingChanged(u.(expanded := expanded)) == AnythingChanged(u)
    ensures AnythingChanged(u.(expandedChanged := true))
    ensures AnythingChanged(u.(selectedBubbleKey := Some(key)))
    ensures AnythingChanged(u.(addedBubble := Some(info)))
    ensures AnythingChanged(u.(updatedBubble := Some(info)))
    ensures AnythingChanged(u.(suppressedBubbleKey := Some(key)))
    ensures AnythingChanged(u.(unsupressedBubbleKey := Some(key)))
    ensures AnythingChanged(u.(removedBubbles := u.removedBubbles + [removed]))
    ensures AnythingChanged(u.(bubbleKeysInOrder := u.bubbleKeysInOrder + [orderedKey]))
    ensures AnythingChanged(u.(currentBubbleList := u.currentBubbleList + [current]))
  {
  }

  /** A list holding only null entries is still a change: `anythingChanged`
      looks at emptiness, not at the entries. */
  lemma NullEntriesCount()
    ensures AnythingChanged(Empty().(bubbleKeysInOrder := [None]))
    ensures AnythingChanged(Empty().(removedBubbles := [None]))
  {
  }

  // ---------------------------------------------------------------------------
  // Parcel

  function AsParcelable(b: BubbleInfo): ParcelableValue {
    BubbleInfoValue(b)
  }

  function RemovedAsParcelable(b: RemovedBubble): ParcelableValue {
    RemovedBubbleValue(b)
  }

  /** The class check of reading a BubbleInfo. */
  function CastBubbleInfo(v: ParcelableValue): (r: Option<BubbleInfo>)
    ensures r.Some? <==> v.BubbleInfoValue?
    ensures r.Some? ==> AsParcelable(r.value) == v
  {
    if v.BubbleInfoValue? then Some(v.info) else None
  }

  /** The class check of reading a RemovedBubble. */
  function CastRemovedBubble(v: ParcelableValue): (r: Option<RemovedBubble>)
    ensures r.Some? <==> v.RemovedBubbleValue?
    ensures r.Some? ==> RemovedAsParcelable(r.value) == v
  {
    if v.RemovedBubbleValue? then Some(v.removed) else None
  }

  /** Each class check accepts exactly the objects of its class. */
  lemma CastsUndoUpcasts(b: BubbleInfo, removed: RemovedBubble)
    ensures CastBubbleInfo(AsParcelable(b)) == Some(b)
    ensures CastRemovedBubble(RemovedAsParcelable(removed)) == Some(removed)
    ensures CastBubbleInfo(RemovedAsParcelable(removed)).None?
    ensures CastRemovedBubble(AsParcelable(b)).None?
  {
  }

  /** The first seven values writeToParcel writes: the single-valued fields in
      declaration order, `expanded` included. */
  function EncodeFields(u: BubbleBarUpdate): seq<Token> {
    WriteBoolean(u.expandedChanged)
    + WriteBoolean(u.expanded)
    + WriteString(u.selectedBubbleKey)
    + WriteParcelable(u.addedBubble, AsParcelable)
    + WriteParcelable(u.updatedBubble, AsParcelable)
    + WriteString(u.suppressedBubbleKey)
    + WriteString(u.unsupressedBubbleKey)
  }

  /** The rest of writeToParcel: the three lists. */
  function EncodeLists(u: BubbleBarUpdate): seq<Token>
    requires WellSized(u)
  {
    WriteList(u.removedBubbles, o => WriteParcelable(o, RemovedAsParcelable))
    + WriteList(u.bubbleKeysInOrder, WriteString)
    + WriteList(u.currentBubbleList, o => WriteParcelable(o, AsParcelable))
  }

  /** writeToParcel. */
  function Encode(u: BubbleBarUpdate): seq<Token>
    requires WellSized(u)
  {
    EncodeFields(u) + EncodeLists(u)
  }

  /** The first three reads of BubbleBarUpdate(Parcel): the two flags and the
      selected key. */
  function DecodeFlags(u: BubbleBarUpdate, p: seq<Token>): (r: ReadResult<BubbleBarUpdate>)
    ensures r.Success? ==> r.value.value == u.(expandedChanged := r.value.value.expandedChanged,
                                               expanded := r.value.value.expanded,
                                               selectedBubbleKey := r.value.value.selectedBubbleKey)
  {
    var expandedChanged :- ReadBoolean(p);
    var expanded :- ReadBoolean(expandedChanged.rest);
    var selected :- ReadString(expanded.rest);
    Success(Read(u.(expandedChanged := expandedChanged.value, expanded := expanded.value,
                    selectedBubbleKey := selected.value),
                 selected.rest))
  }

  /** The next four reads: the added and updated bubbles, then the suppressed
      and unsuppressed keys. */
  function DecodeBubbles(u: BubbleBarUpdate, p: seq<Token>): (r: ReadResult<BubbleBarUpdate>)
    ensures r.Success? ==> r.value.value == u.(addedBubble := r.value.value.addedBubble,
                                               updatedBubble := r.value.value.updatedBubble,
                                               suppressedBubbleKey := r.value.value.suppressedBubbleKey,
                                               unsupressedBubbleKey := r.value.value.unsupressedBubbleKey)
  {
    var added :- ReadParcelable(p, CastBubbleInfo);
    var updated :- ReadParcelable(added.rest, CastBubbleInfo);
    var suppressed :- ReadString(updated.rest);
    var unsuppressed :- ReadString(suppressed.rest);
    Success(Read(u.(addedBubble := added.value, updatedBubble := updated.value,
                    suppressedBubbleKey := suppressed.value, unsupressedBubbleKey := unsuppressed.value),
                 unsuppressed.rest))
  }

  /** The first seven reads of BubbleBarUpdate(Parcel), into an update whose
      lists are still the freshly created empty ones. */
  function DecodeFields(p: seq<Token>): (r: ReadResult<BubbleBarUpdate>)
    ensures r.Success? ==> r.value.value.(expandedChanged := false, expanded := false, selectedBubbleKey := None,
                                          addedBubble := None, updatedBubble := None, suppressedBubbleKey := None,
                                          unsupressedBubbleKey := None) == Empty()
  {
    var flags :- DecodeFlags(Empty(), p);
    DecodeBubbles(flags.value, flags.rest)
  }

  /** The last three reads: `removedBubbles` and `currentBubbleList` are read
      into new lists, `bubbleKeysInOrder` into the field's own list. */
  function DecodeLists(u: BubbleBarUpdate, p: seq<Token>): (r: ReadResult<BubbleBarUpdate>)
    ensures r.Success? ==> WellSized(r.value.value)
    ensures r.Success? ==> r.value.value == u.(removedBubbles := r.value.value.removedBubbles,
                                               bubbleKeysInOrder := r.value.value.bubbleKeysInOrder,
                                               currentBubbleList := r.value.value.currentBubbleList)
  {
    var removed :- ReadParcelableList([], p, CastRemovedBubble);
    var keys :- ReadStringList(u.bubbleKeysInOrder, removed.rest);
    var current :- ReadParcelableList([], keys.rest, CastBubbleInfo);
    Success(Read(u.(removedBubbles := removed.value, bubbleKeysInOrder := keys.value,
                    currentBubbleList := current.value),
                 current.rest))
  }

  /** BubbleBarUpdate(Parcel): reads the ten fields in the order they were written. */
  function Decode(p: seq<Token>): (r: ReadResult<BubbleBarUpdate>)
    ensures r.Success? ==> WellSized(r.value.value)
  {
    var fields :- DecodeFields(p);
    DecodeLists(fields.value, fields.rest)
  }

  lemma FlagsRoundTrip(u: BubbleBarUpdate, v: BubbleBarUpdate, rest: seq<Token>)
    ensures DecodeFlags(v, WriteBoolean(u.expandedChanged) + WriteBoolean(u.expanded)
                           + WriteString(u.selectedBubbleKey) + rest)
            == Success(Read(v.(expandedChanged := u.expandedChanged, expanded := u.expanded,
                               selectedBubbleKey := u.selectedBubbleKey), rest))
  {
    var r3 := WriteString(u.selectedBubbleKey) + rest;
    var r2 := WriteBoolean(u.expanded) + r3;
    assert WriteBoolean(u.expandedChanged) + WriteBoolean(u.expanded) + WriteString(u.selectedBubbleKey) + rest
           == WriteBoolean(u.expandedChanged) + r2;
    BooleanRoundTrip(u.expandedChanged, r2);
    BooleanRoundTrip(u.expanded, r3);
    StringRoundTrip(u.selectedBubbleKey, rest);
  }

  lemma BubblesRoundTrip(u: BubbleBarUpdate, v: BubbleBarUpdate, rest: seq<Token>)
    ensures DecodeBubbles(v, WriteParcelable(u.addedBubble, AsParcelable) + WriteParcelable(u.updatedBubble, AsParcelable)
                             + WriteString(u.suppressedBubbleKey) + WriteString(u.unsupressedBubbleKey) + rest)
            == Success(Read(v.(addedBubble := u.addedBubble, updatedBubble := u.updatedBubble,
                               suppressedBubbleKey := u.suppressedBubbleKey,
                               unsupressedBubbleKey := u.unsupressedBubbleKey), rest))
  {
    var r4 := WriteString(u.unsupressedBubbleKey) + rest;
    var r3 := WriteString(u.suppressedBubbleKey) + r4;
    var r2 := WriteParcelable(u.updatedBubble, AsParcelable) + r3;
    assert WriteParcelable(u.addedBubble, AsParcelable) + WriteParcelable(u.updatedBubble, AsParcelable)
           + WriteString(u.suppressedBubbleKey) + WriteString(u.unsupressedBubbleKey) + rest
           == WriteParcelable(u.addedBubble, AsParcelable) + r2;
    ParcelableRoundTrip(u.addedBubble, r2, AsParcelable, CastBubbleInfo);
    ParcelableRoundTrip(u.updatedBubble, r3, AsParcelable, CastBubbleInfo);
    StringRoundTrip(u.suppressedBubbleKey, r4);
    StringRoundTrip(u.unsupressedBubbleKey, rest);
  }

  lemma FieldsRoundTrip(u: BubbleBarUpdate, rest: seq<Token>)
    ensures DecodeFields(EncodeFields(u) + rest)
            == Success(Read(u.(removedBubbles := [], bubbleKeysInOrder := [], currentBubbleList := []), rest))
  {
    var bubbles := WriteParcelable(u.addedBubble, AsParcelable) + WriteParcelable(u.updatedBubble, AsParcelable)
                   + WriteString(u.suppressedBubbleKey) + WriteString(u.unsupressedBubbleKey) + rest;
    assert EncodeFields(u) + rest
           == WriteBoolean(u.expandedChanged) + WriteBoolean(u.expanded) + WriteString(u.selectedBubbleKey) + bubbles;
    FlagsRoundTrip(u, Empty(), bubbles);
    var flags := Empty().(expandedChanged := u.expandedChanged, expanded := u.expanded,
                          selectedBubbleKey := u.selectedBubbleKey);
    BubblesRoundTrip(u, flags, rest);
  }

  lemma ListsRoundTrip(u: BubbleBarUpdate, rest: seq<Token>)
    requires WellSized(u)
    ensures var initial := u.(removedBubbles := [], bubbleKeysInOrder := [], currentBubbleList := []);
            DecodeLists(initial, EncodeLists(u) + rest) == Success(Read(u, rest))
  {
    var r3 := WriteList(u.currentBubbleList, o => WriteParcelable(o, AsParcelable)) + rest;
    var r2 := WriteList(u.bubbleKeysInOrder, WriteString) + r3;
    assert EncodeLists(u) + rest == WriteList(u.removedBubbles, o => WriteParcelable(o, RemovedAsParcelable)) + r2;
    ParcelableListRoundTrip([], u.removedBubbles, r2, RemovedAsParcelable, CastRemovedBubble);
    StringListRoundTrip([], u.bubbleKeysInOrder, r3);
    ParcelableListRoundTrip([], u.currentBubbleList, rest, AsParcelable, CastBubbleInfo);
  }

  /** Decoding what `Encode` wrote gives every field back and consumes exactly
      the update's tokens. */
  lemma RoundTrip(u: BubbleBarUpdate, rest: seq<Token>)
    requires WellSized(u)
    ensures Decode(Encode(u) + rest) == Success(Read(u, rest))
  {
    assert Encode(u) + rest == EncodeFields(u) + (EncodeLists(u) + rest);
    FieldsRoundTrip(u, EncodeLists(u) + rest);
    ListsRoundTrip(u, rest);
  }

  /** The receiver sees a change exactly when the sender did. */
  lemma RoundTripPreservesAnythingChanged(u: BubbleBarUpdate)
    requires WellSized(u)
    ensures Decode(Encode(u)).Success?
    ensures AnythingChanged(Decode(Encode(u)).value.value) == AnythingChanged(u)
  {
    RoundTrip(u, []);
    assert Encode(u) + [] == Encode(u);
  }
}

/** An abstract Parcel: the sequence of typed values a Parcelable writes, in the
    order it writes them, instead of the platform's byte layout. A reader takes
    values off the front and hands back the rest. Lists are written as Parcel
    writes them: the element count (-1 for a null list) followed by the
    elements. */
module Parcel {
  import opened Wrappers

  /** Java's 32-bit `int`. */
  newtype int32 = x: int | -0x8000_0000 <= x < 0x8000_0000

  const INT32_MAX: int := 0x7fff_ffff

  /** A bubble as sent to the launcher. Only its key is modelled; its other
      fields and its own parcel codec stay opaque. */
  datatype BubbleInfo = BubbleInfo(key: string)

  /** A removed bubble: its key and why it was removed. */
  datatype RemovedBubble = RemovedBubble(key: string, removalReason: int32)

  /** A nested Parcelable object. It travels as one token and is read back
      unchanged: the round trip of its own codec is taken as given. */
  datatype ParcelableValue =
    | BubbleInfoValue(info: BubbleInfo)
    | RemovedBubbleValue(removed: RemovedBubble)

  datatype Token =
    | IntToken(i: int32)
    | BoolToken(b: bool)
    | StringToken(s: Option<string>)
    | ParcelableToken(p: Option<ParcelableValue>)

  datatype ParcelError =
    | EndOfData
    | UnexpectedToken(found: Token)
      // readParcelable(loader, clazz) found an object of another class
    | BadParcelable
      // a negative list length read into a list that is not empty
    | ListIndexOutOfBounds

  /** A value read from the front of a parcel, and what is left after it. */
  datatype Read<+T> = Read(value: T, rest: seq<Token>)

  type ReadResult<T> = Result<Read<T>, ParcelError>

  function WriteInt(i: int32): seq<Token> {
    [IntToken(i)]
  }

  function WriteBoolean(b: bool): seq<Token> {
    [BoolToken(b)]
  }

  function WriteString(s: Option<string>): seq<Token> {
    [StringToken(s)]
  }

  /** writeParcelable of an object of type `T`, which `up` views as a
      Parcelable; null is written as null. */
  function WriteParcelable<T>(o: Option<T>, up: T -> ParcelableValue): seq<Token> {
    match o
    case None => [ParcelableToken(None)]
    case Some(x) => [ParcelableToken(Some(up(x)))]
  }

  function ReadInt(p: seq<Token>): (r: ReadResult<int32>)
    ensures r.Success? <==> |p| > 0 && p[0].IntToken?
    ensures r.Success? ==> p == WriteInt(r.value.value) + r.value.rest
  {
    if |p| == 0 then Failure(EndOfData)
    else if p[0].IntToken? then Success(Read(p[0].i, p[1..]))
    else Failure(UnexpectedToken(p[0]))
  }

  function ReadBoolean(p: seq<Token>): (r: ReadResult<bool>)
    ensures r.Success? <==> |p| > 0 && p[0].BoolToken?
    ensures r.Success? ==> p == WriteBoolean(r.value.value) + r.value.rest
  {
    if |p| == 0 then Failure(EndOfData)
    else if p[0].BoolToken? then Success(Read(p[0].b, p[1..]))
    else Failure(UnexpectedToken(p[0]))
  }

  function ReadString(p: seq<Token>): (r: ReadResult<Option<string>>)
    ensures r.Success? <==> |p| > 0 && p[0].StringToken?
    ensures r.Success? ==> p == WriteString(r.value.value) + r.value.rest
  {
    if |p| == 0 then Failure(EndOfData)
    else if p[0].StringToken? then Success(Read(p[0].s, p[1..]))
    else Failure(UnexpectedToken(p[0]))
  }

  /** readParcelable(loader, clazz): null reads as null, an object that `cast`
      does not accept (another class) fails. */
  function ReadParcelable<T>(p: seq<Token>, cast: ParcelableValue -> Option<T>): (r: ReadResult<Option<T>>)
    ensures r.Success? ==> |p| > 0 && p[0].ParcelableToken? && r.value.rest == p[1..]
    ensures r.Success? && r.value.value.Some? ==> p[0].p.Some? && cast(p[0].p.value) == r.value.value
    ensures r.Success? && r.value.value.None? <==> |p| > 0 && p[0] == ParcelableToken(None)
  {
    if |p| == 0 then Failure(EndOfData)
    else if !p[0].ParcelableToken? then Failure(UnexpectedToken(p[0]))
    else match p[0].p
      case None => Success(Read(None, p[1..]))
      case Some(v) =>
        match cast(v)
        case None => Failure(BadParcelable)
        case Some(x) => Success(Read(Some(x), p[1..]))
  }

  /** The elements of a list, each written by `write`, one after the other. */
  function WriteEach<T>(xs: seq<T>, write: T -> seq<Token>): seq<Token>
    decreases |xs|
  {
    if xs == [] then [] else write(xs[0]) + WriteEach(xs[1..], write)
  }

  /** Reads `n` elements with `read`, in order. */
  function ReadEach<T>(p: seq<Token>, n: nat, read: seq<Token> -> ReadResult<T>): (r: ReadResult<seq<T>>)
    ensures r.Success? ==> |r.value.value| == n
    decreases n
  {
    if n == 0 then Success(Read([], p))
    else
      var first :- read(p);
      var others :- ReadEach(first.rest, n - 1, read);
      Success(Read([first.value] + others.value, others.rest))
  }

  /** writeStringList / writeParcelableList of a non-null list: its size as an
      int, then its elements. */
  function WriteList<T>(xs: seq<T>, write: T -> seq<Token>): seq<Token>
    requires |xs| <= INT32_MAX
  {
    WriteInt(|xs| as int32) + WriteEach(xs, write)
  }

  /** readStringList(dest): reads a count N; the first N strings overwrite
      `dest`, further ones are appended and surplus entries of `dest` are
      removed. A negative N leaves an empty `dest` empty; on a non-empty one
      the removal at index N throws. */
  function ReadStringList(dest: seq<Option<string>>, p: seq<Token>): (r: ReadResult<seq<Option<string>>>)
    ensures r.Success? ==> |p| > 0 && p[0].IntToken?
    ensures r.Success? && p[0].i >= 0 ==> |r.value.value| == p[0].i as int
    ensures r.Success? && p[0].i < 0 ==> r.value.value == [] && dest == []
  {
    var n :- ReadInt(p);
    if n.value >= 0 then ReadEach(n.rest, n.value as nat, ReadString)
    else if dest == [] then Success(Read([], n.rest))
    else Failure(ListIndexOutOfBounds)
  }

  /** readParcelableList(dest, loader): as `ReadStringList`, except that a
      count of -1 (a null list) clears `dest`. */
  function ReadParcelableList<T>(dest: seq<Option<T>>, p: seq<Token>, cast: ParcelableValue -> Option<T>)
    : (r: ReadResult<seq<Option<T>>>)
    ensures r.Success? ==> |p| > 0 && p[0].IntToken?
    ensures r.Success? && p[0].i >= 0 ==> |r.value.value| == p[0].i as int
    ensures r.Success? && p[0].i < 0 ==> r.value.value == [] && (p[0].i == -1 || dest == [])
  {
    var n :- ReadInt(p);
    if n.value == -1 then Success(Read([], n.rest))
    else if n.value >= 0 then ReadEach(n.rest, n.value as nat, q => ReadParcelable(q, cast))
    else if dest == [] then Success(Read([], n.rest))
    else Failure(ListIndexOutOfBounds)
  }

  /** An int reads back as written and leaves exactly what followed it. */
  lemma IntRoundTrip(i: int32, rest: seq<Token>)
    ensures ReadInt(WriteInt(i) + rest) == Success(Read(i, rest))
  {
    assert (WriteInt(i) + rest)[1..] == rest;
  }

  /** A boolean reads back as written and leaves exactly what followed it. */
  lemma BooleanRoundTrip(b: bool, rest: seq<Token>)
    ensures ReadBoolean(WriteBoolean(b) + rest) == Success(Read(b, rest))
  {
    assert (WriteBoolean(b) + rest)[1..] == rest;
  }

  /** A string, null included, reads back as written and leaves exactly what
      followed it. */
  lemma StringRoundTrip(s: Option<string>, rest: seq<Token>)
    ensures ReadString(WriteString(s) + rest) == Success(Read(s, rest))
  {
    assert (WriteString(s) + rest)[1..] == rest;
  }

  /** Reading back what `WriteParcelable` wrote gives the same object, provided
      `cast` recognises every object `up` produces. */
  lemma ParcelableRoundTrip<T>(o: Option<T>, rest: seq<Token>, up: T -> ParcelableValue, cast: ParcelableValue -> Option<T>)
    requires forall x :: cast(up(x)) == Some(x)
    ensures ReadParcelable(WriteParcelable(o, up) + rest, cast) == Success(Read(o, rest))
  {
  }

  /** Reading |xs| elements back from what `WriteEach` wrote gives `xs` and
      leaves exactly the tokens that followed. */
  lemma {:induction false} ReadEachRoundTrip<T>(xs: seq<T>, rest: seq<Token>,
                                                 write: T -> seq<Token>, read: seq<Token> -> ReadResult<T>)
    requires forall x, q :: read(write(x) + q) == Success(Read(x, q))
    ensures ReadEach(WriteEach(xs, write) + rest, |xs|, read) == Success(Read(xs, rest))
    decreases |xs|
  {
    if xs == [] {
      assert WriteEach(xs, write) + rest == rest;
    } else {
      var tail := WriteEach(xs[1..], write) + rest;
      assert WriteEach(xs, write) + rest == write(xs[0]) + tail;
      assert read(write(xs[0]) + tail) == Success(Read(xs[0], tail));
      ReadEachRoundTrip(xs[1..], rest, write, read);
      assert [xs[0]] + xs[1..] == xs;
    }
  }

  /** A string list reads back as written, whatever `dest` held before: the
      count always overwrites or truncates it. */
  lemma StringListRoundTrip(dest: seq<Option<string>>, xs: seq<Option<string>>, rest: seq<Token>)
    requires |xs| <= INT32_MAX
    ensures ReadStringList(dest, WriteList(xs, WriteString) + rest) == Success(Read(xs, rest))
  {
    assert WriteList(xs, WriteString) + rest == [IntToken(|xs| as int32)] + (WriteEach(xs, WriteString) + rest);
    forall x, q ensures ReadString(WriteString(x) + q) == Success(Read(x, q)) {
      assert (WriteString(x) + q)[1..] == q;
    }
    ReadEachRoundTrip(xs, rest, WriteString, ReadString);
  }

  /** A parcelable list reads back as written, whatever `dest` held before. */
  lemma ParcelableListRoundTrip<T>(dest: seq<Option<T>>, xs: seq<Option<T>>, rest: seq<Token>,
                                   up: T -> ParcelableValue, cast: ParcelableValue -> Option<T>)
    requires |xs| <= INT32_MAX
    requires forall x :: cast(up(x)) == Some(x)
    ensures ReadParcelableList(dest, WriteList(xs, o => WriteParcelable(o, up)) + rest, cast)
            == Success(Read(xs, rest))
  {
    var write := (o: Option<T>) => WriteParcelable(o, up);
    var read := (q: seq<Token>) => ReadParcelable(q, cast);
    assert WriteList(xs, write) + rest == [IntToken(|xs| as int32)] + (WriteEach(xs, write) + rest);
    forall o, q ensures read(write(o) + q) == Success(Read(o, q)) {
      ParcelableRoundTrip(o, q, up, cast);
    }
    ReadEachRoundTrip(xs, rest, write, read);
  }

  /** A null list (count -1) reads back as an empty list, the same as a list
      with no elements. */
  lemma NullListReadsEmpty<T>(dest: seq<Option<T>>, rest: seq<Token>, cast: ParcelableValue -> Option<T>)
    ensures ReadParcelableList(dest, WriteInt(-1) + rest, cast) == Success(Read([], rest))
    ensures ReadParcelableList(dest, WriteInt(0) + rest, cast) == Success(Read([], rest))
    ensures ReadStringList([], WriteInt(-1) + rest) == Success(Read([], rest))
    ensures dest != [] ==> ReadParcelableList(dest, WriteInt(-2) + rest, cast) == Failure(ListIndexOutOfBounds)
  {
    assert (WriteInt(-1) + rest)[1..] == rest;
    assert (WriteInt(0) + rest)[1..] == rest;
  }
}

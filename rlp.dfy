/**
 * The RLP stream that the option decoder reads, seen at the level of items: every item is a byte
 * string or a list of items. The byte-level framing of RLP is not modelled. The stream offers the
 * operations the decoder calls on go-ethereum's rlp.Stream (List, Decode of one item, Raw, ListEnd),
 * with the errors that library reports for them.
 */
module Rlp {
  import opened Wrappers

  type byte = x: int | 0 <= x < 0x100

  datatype Item = Str(bytes: seq<byte>) | List(elems: seq<Item>)

  datatype RlpError =
    | EOF                 // nothing is left at the top level of the input (io.EOF)
    | EOL                 // the current list has no more elements (rlp.EOL)
    | ExpectedList        // a list was expected and a string was found
    | ExpectedString      // a string was expected and a list was found
    | NotAtEOL            // ListEnd while the current list still has elements
    | NotInList           // ListEnd at the top level
    | CanonInt            // an integer written with a leading zero byte
    | UintOverflow        // an integer wider than the Go type it is read into
    | InvalidBool(n: nat) // a boolean other than 0 or 1
    | StringTooShort      // a byte array read from a shorter string
    | StringTooLong       // a byte array read from a longer string
    | TooFewElements      // a struct read from a list with fewer elements than fields
    | TooManyElements     // a struct read from a list with more elements than fields

  /** The number of items in x, counting x and every nested item. */
  function ItemSize(x: Item): nat
    decreases x
  {
    match x
    case Str(_) => 1
    case List(es) => 1 + ItemsSize(es)
  }

  function ItemsSize(xs: seq<Item>): nat
    decreases xs
  {
    if xs == [] then 0 else ItemSize(xs[0]) + ItemsSize(xs[1..])
  }

  function FramesSize(f: seq<seq<Item>>): nat {
    if f == [] then 0 else FramesSize(f[..|f| - 1]) + ItemsSize(f[|f| - 1])
  }

  lemma FramesSizeSnoc(f: seq<seq<Item>>, c: seq<Item>)
    ensures FramesSize(f + [c]) == FramesSize(f) + ItemsSize(c)
  {
    assert (f + [c])[..|f|] == f;
  }

  type Frames = f: seq<seq<Item>> | |f| > 0 witness [[]]

  /**
   * The position of a reader in its input. frames[0] holds the items left at the top level; each
   * later frame holds the items left in one list the reader has entered, the innermost last.
   */
  datatype Stream = Stream(frames: Frames) {

    predicate InList() {
      |frames| > 1
    }

    /** The items left in the innermost open list (or at the top level). */
    function Current(): seq<Item> {
      frames[|frames| - 1]
    }

    function Enclosing(): seq<seq<Item>> {
      frames[..|frames| - 1]
    }

    /** The number of items still to be read, nested ones included. */
    function Size(): nat {
      FramesSize(frames)
    }
  }

  lemma SizeSplit(s: Stream)
    ensures s.frames == s.Enclosing() + [s.Current()]
    ensures s.Size() == FramesSize(s.Enclosing()) + ItemsSize(s.Current())
  {
    FramesSizeSnoc(s.Enclosing(), s.Current());
  }

  /** A reader whose current list is c, inside the lists e. */
  function Within(e: seq<seq<Item>>, c: seq<Item>): Stream {
    Stream(e + [c])
  }

  /** The frames of a stream whose current list is c inside the lists e. */
  lemma FramesOf(e: seq<seq<Item>>, c: seq<Item>)
    ensures Stream(e + [c]).Enclosing() == e && Stream(e + [c]).Current() == c
    ensures Stream(e + [c]).InList() <==> |e| > 0
  {
    assert (e + [c])[..|e|] == e;
  }

  /** The next item, or the error rlp.Stream.Kind reports when there is none. */
  function Peek(s: Stream): Result<Item, RlpError> {
    if s.Current() == [] then Err(if s.InList() then EOL else EOF) else Ok(s.Current()[0])
  }

  /** The stream after the next item of the current list. */
  function Advance(s: Stream): (r: Stream)
    requires s.Current() != []
    ensures r.frames == s.Enclosing() + [s.Current()[1..]]
    ensures r.Enclosing() == s.Enclosing() && r.Current() == s.Current()[1..]
  {
    var r := Stream(s.Enclosing() + [s.Current()[1..]]);
    FramesOf(s.Enclosing(), s.Current()[1..]);
    r
  }

  lemma {:induction false} ItemsSizeTail(xs: seq<Item>)
    requires xs != []
    ensures ItemsSize(xs) == ItemSize(xs[0]) + ItemsSize(xs[1..])
  {
  }

  /** Reading an item leaves fewer items to read. */
  lemma AdvanceShrinks(s: Stream)
    requires s.Current() != []
    ensures Advance(s).Size() < s.Size()
  {
    SizeSplit(s);
    SizeSplit(Advance(s));
    ItemsSizeTail(s.Current());
  }

  /** Stream.List: enter the list that is the next item. */
  function OpenList(s: Stream): (r: Result<Stream, RlpError>)
    ensures r.Ok? <==> s.Current() != [] && s.Current()[0].List?
    ensures r.Ok? ==> r.value.frames == Advance(s).frames + [s.Current()[0].elems]
  {
    match Peek(s)
    case Err(e) => Err(e)
    case Ok(Str(_)) => Err(ExpectedList)
    case Ok(List(es)) => Ok(Stream(Advance(s).frames + [es]))
  }

  /** Entering a list leaves fewer items to read: the list itself is no longer counted. */
  lemma OpenListShrinks(s: Stream)
    requires OpenList(s).Ok?
    ensures OpenList(s).value.Size() < s.Size()
  {
    var r := OpenList(s).value;
    var es := s.Current()[0].elems;
    SizeSplit(s);
    SizeSplit(Advance(s));
    ItemsSizeTail(s.Current());
    FramesSizeSnoc(Advance(s).frames, es);
  }

  /** Stream.Raw, and the reading of one item that every value decoder starts with. */
  function ReadItem(s: Stream): (r: Result<(Item, Stream), RlpError>)
    ensures r.Ok? <==> s.Current() != []
    ensures r.Ok? ==> r.value == (s.Current()[0], Advance(s))
  {
    match Peek(s)
    case Err(e) => Err(e)
    case Ok(x) => Ok((x, Advance(s)))
  }

  /** Stream.Decode into a Go string: the next item must be a string; its bytes are the result. */
  function ReadString(s: Stream): (r: Result<(seq<byte>, Stream), RlpError>)
    ensures r.Ok? <==> s.Current() != [] && s.Current()[0].Str?
    ensures r.Ok? ==> r.value == (s.Current()[0].bytes, Advance(s))
  {
    match Peek(s)
    case Err(e) => Err(e)
    case Ok(List(_)) => Err(ExpectedString)
    case Ok(Str(b)) => Ok((b, Advance(s)))
  }

  /** Stream.ListEnd: leave the current list, which must have been read to its end. */
  function CloseList(s: Stream): (r: Result<Stream, RlpError>)
    ensures r.Ok? <==> s.InList() && s.Current() == []
    ensures r.Ok? ==> r.value.frames == s.Enclosing()
  {
    if !s.InList() then Err(NotInList)
    else if s.Current() != [] then Err(NotAtEOL)
    else Ok(Stream(s.Enclosing()))
  }

  /** Leaving a list, or dropping what is left of it, never adds items to read. */
  lemma LeaveListShrinks(s: Stream)
    requires s.InList()
    ensures Stream(s.Enclosing()).Size() <= s.Size()
  {
    SizeSplit(s);
  }
}

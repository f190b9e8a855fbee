/** The streaming side of the chat API client (src/api.py, `stream_chat`): how the newline-delimited
    JSON reply is turned into `(chunk, done_metadata)` items, and how transport failures become
    `OllamaError`. The HTTP request itself and `json.loads` are not modelled: the reply is given as
    its status and its lines, each line already classified. */
module Stream {
  import opened Wrappers

  /** One raw line of the reply body, after JSON decoding. A `Record` keeps only the fields the
      client reads; `None` stands for a missing key. */
  datatype RawLine =
    | Empty                                   // a zero-length line
    | Malformed                               // a line `json.loads` rejects with `JSONDecodeError`
    | Record(content: Option<string>, done: Option<bool>, evalCount: Option<int>)

  /** The payload of the record that ends the stream (`data`), of which the session reads `eval_count`. */
  datatype Meta = Meta(evalCount: Option<int>)

  /** One yielded `(content_chunk, done_metadata)` pair. */
  datatype Item = Item(chunk: string, meta: Option<Meta>)

  /** What the transport delivers: no connection at all, or an HTTP status with the body's lines. */
  datatype Reply = Unreachable | Reply(status: int, lines: seq<RawLine>)

  datatype OllamaError = CouldNotConnect | ApiError(status: int)

  /** `raise_for_status` raises for the client and server error classes. */
  predicate IsErrorStatus(status: int) {
    400 <= status < 600
  }

  /** A record whose `done` field is present and true. */
  predicate IsDone(line: RawLine) {
    line.Record? && line.done == Some(true)
  }

  predicate HasDone(lines: seq<RawLine>) {
    exists k :: 0 <= k < |lines| && IsDone(lines[k])
  }

  /** The item a record yields: a missing content is `""`, and only a done record carries metadata. */
  function ItemOf(line: RawLine): Item
    requires line.Record?
  {
    Item(line.content.GetOr(""), if IsDone(line) then Some(Meta(line.evalCount)) else None)
  }

  /** The line loop of `stream_chat`: skip empty and undecodable lines, yield one item per record, and
      return right after the first done record. */
  function Items(lines: seq<RawLine>): (items: seq<Item>)
    ensures |items| <= |lines|
    ensures forall i :: 0 <= i < |items| - 1 ==> items[i].meta.None?
    ensures (|items| > 0 && items[|items| - 1].meta.Some?) <==> HasDone(lines)
  {
    if lines == [] then []
    else match lines[0]
      case Empty => Items(lines[1..])
      case Malformed => Items(lines[1..])
      case Record(_, _, _) =>
        if IsDone(lines[0]) then [ItemOf(lines[0])]
        else
          var rest := Items(lines[1..]);
          assert HasDone(lines[1..]) ==> HasDone(lines) by {
            if HasDone(lines[1..]) {
              var k :| 0 <= k < |lines[1..]| && IsDone(lines[1..][k]);
              assert IsDone(lines[k + 1]);
            }
          }
          assert HasDone(lines) ==> HasDone(lines[1..]) by {
            if HasDone(lines) {
              var k :| 0 <= k < |lines| && IsDone(lines[k]);
              assert k != 0 && IsDone(lines[1..][k - 1]);
            }
          }
          [ItemOf(lines[0])] + rest
  }

  /** `stream_chat` as a whole: a transport failure raises before anything is yielded. */
  function StreamChat(reply: Reply): (r: Result<seq<Item>, OllamaError>)
    ensures r.Failure? <==> reply.Unreachable? || IsErrorStatus(reply.status)
    ensures reply.Unreachable? ==> r == Failure(CouldNotConnect)
    ensures reply.Reply? && IsErrorStatus(reply.status) ==> r == Failure(ApiError(reply.status))
    ensures r.Success? ==> r.value == Items(reply.lines)
  {
    match reply
    case Unreachable => Failure(CouldNotConnect)
    case Reply(status, lines) =>
      if IsErrorStatus(status) then Failure(ApiError(status)) else Success(Items(lines))
  }

  /** `full_response`: every chunk, in order. */
  function Chunks(items: seq<Item>): string {
    if items == [] then "" else Chunks(items[..|items| - 1]) + items[|items| - 1].chunk
  }

  /** `token_count`: the `eval_count` of the last item carrying metadata, 0 when it has none or
      when no item carries metadata. */
  function TokenCount(items: seq<Item>): int {
    if items == [] then 0
    else
      var last := items[|items| - 1];
      if last.meta.Some? then last.meta.value.evalCount.GetOr(0) else TokenCount(items[..|items| - 1])
  }

  // ---------------------------------------------------------------------------------------------
  // An independent description of the line loop: cut the lines after the first done record, keep
  // the records, and map each to its item.

  /** The lines up to and including the first done record; all of them when there is none. */
  function UpToDone(lines: seq<RawLine>): seq<RawLine> {
    if lines == [] then []
    else if IsDone(lines[0]) then [lines[0]]
    else [lines[0]] + UpToDone(lines[1..])
  }

  /** The lines that decode to a record, in order. */
  function RecordsIn(lines: seq<RawLine>): (rs: seq<RawLine>)
    ensures forall i :: 0 <= i < |rs| ==> rs[i].Record?
  {
    if lines == [] then []
    else if lines[0].Record? then [lines[0]] + RecordsIn(lines[1..])
    else RecordsIn(lines[1..])
  }

  function ItemsOf(rs: seq<RawLine>): (items: seq<Item>)
    requires forall i :: 0 <= i < |rs| ==> rs[i].Record?
    ensures |items| == |rs|
  {
    seq(|rs|, i requires 0 <= i < |rs| => ItemOf(rs[i]))
  }

  /** The loop yields exactly the items of the records up to the first done record. */
  lemma {:induction false} ItemsAreRecordsUpToDone(lines: seq<RawLine>)
    ensures Items(lines) == ItemsOf(RecordsIn(UpToDone(lines)))
  {
    if lines != [] {
      ItemsAreRecordsUpToDone(lines[1..]);
      if lines[0].Record? && !IsDone(lines[0]) {
        RecordBeforeDone(lines);
      } else if IsDone(lines[0]) {
        assert UpToDone(lines) == [lines[0]];
        assert RecordsIn([lines[0]]) == [lines[0]] + RecordsIn([]);
      } else {
        assert UpToDone(lines) == [lines[0]] + UpToDone(lines[1..]);
      }
    }
  }

  lemma {:induction false} RecordBeforeDone(lines: seq<RawLine>)
    requires lines != [] && lines[0].Record? && !IsDone(lines[0])
    ensures ItemsOf(RecordsIn(UpToDone(lines))) == [ItemOf(lines[0])] + ItemsOf(RecordsIn(UpToDone(lines[1..])))
  {
    var rs := RecordsIn(UpToDone(lines[1..]));
    assert RecordsIn(UpToDone(lines)) == [lines[0]] + rs;
    ItemsOfCons(lines[0], rs);
  }

  lemma {:induction false} ItemsOfCons(r: RawLine, rs: seq<RawLine>)
    requires r.Record? && forall i :: 0 <= i < |rs| ==> rs[i].Record?
    ensures forall i :: 0 <= i < |[r] + rs| ==> ([r] + rs)[i].Record?
    ensures ItemsOf([r] + rs) == [ItemOf(r)] + ItemsOf(rs)
  {
    forall i | 0 <= i < |[r] + rs| ensures ([r] + rs)[i].Record? {
      if i > 0 {
        assert ([r] + rs)[i] == rs[i - 1];
      }
    }
    var a, b := ItemsOf([r] + rs), [ItemOf(r)] + ItemsOf(rs);
    forall i | 0 <= i < |a| ensures a[i] == b[i] {
      if i > 0 {
        assert ([r] + rs)[i] == rs[i - 1];
      }
    }
  }

  /** The stream ends at the first done record: whatever follows it is never consumed. */
  lemma {:induction false} LinesAfterDoneIgnored(lines: seq<RawLine>, more: seq<RawLine>)
    requires HasDone(lines)
    ensures Items(lines + more) == Items(lines)
  {
    var k :| 0 <= k < |lines| && IsDone(lines[k]);
    if !IsDone(lines[0]) {
      assert k > 0 && IsDone(lines[1..][k - 1]);
      LinesAfterDoneIgnored(lines[1..], more);
      assert (lines + more)[1..] == lines[1..] + more;
    }
  }

  /** Without a done record every decodable line yields its content and no item carries metadata. */
  lemma {:induction false} NoDoneYieldsAllRecords(lines: seq<RawLine>)
    requires !HasDone(lines)
    ensures UpToDone(lines) == lines
    ensures Items(lines) == ItemsOf(RecordsIn(lines))
    ensures forall i :: 0 <= i < |Items(lines)| ==> Items(lines)[i].meta.None?
  {
    if lines != [] {
      assert !IsDone(lines[0]);
      forall j | 0 <= j < |lines[1..]| ensures !IsDone(lines[1..][j]) {
        assert lines[1..][j] == lines[j + 1];
      }
      NoDoneYieldsAllRecords(lines[1..]);
    }
    ItemsAreRecordsUpToDone(lines);
  }

  /** The token count the session reads is the `eval_count` of the first done record (0 if that key
      is missing), and 0 when the reply never signals completion. */
  lemma {:induction false} TokenCountFromDoneRecord(lines: seq<RawLine>)
    ensures !HasDone(lines) ==> TokenCount(Items(lines)) == 0
    ensures forall k :: 0 <= k < |lines| && IsDone(lines[k]) && !HasDone(lines[..k]) ==>
      TokenCount(Items(lines)) == lines[k].evalCount.GetOr(0)
  {
    var items := Items(lines);
    if !HasDone(lines) {
      NoMetaNoTokens(items);
    }
    forall k | 0 <= k < |lines| && IsDone(lines[k]) && !HasDone(lines[..k])
      ensures TokenCount(items) == lines[k].evalCount.GetOr(0)
    {
      FirstDoneEndsItems(lines, k);
    }
  }

  lemma {:induction false} NoMetaNoTokens(items: seq<Item>)
    requires forall i :: 0 <= i < |items| ==> items[i].meta.None?
    ensures TokenCount(items) == 0
  {
    if items != [] {
      NoMetaNoTokens(items[..|items| - 1]);
    }
  }

  /** The last item comes from the first done record. */
  lemma {:induction false} FirstDoneEndsItems(lines: seq<RawLine>, k: nat)
    requires k < |lines| && IsDone(lines[k]) && !HasDone(lines[..k])
    ensures |Items(lines)| > 0 && Items(lines)[|Items(lines)| - 1] == ItemOf(lines[k])
  {
    if k > 0 {
      assert !IsDone(lines[0]) by { assert lines[..k][0] == lines[0]; }
      var before := lines[1..][..k - 1];
      forall j | 0 <= j < |before| ensures !IsDone(before[j]) {
        assert before[j] == lines[..k][j + 1];
      }
      FirstDoneEndsItems(lines[1..], k - 1);
    }
  }
}

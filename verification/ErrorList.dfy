/** The portal's fixed buffer of field errors, written as one JSON object. */
module ErrorList {
  import opened Common

  const SIZE: nat := 1024
  const RESERVE: nat := 4

  datatype Entry = Entry(field: string, message: string)

  function Text(e: Entry): string {
    "\"" + e.field + "\":\"" + e.message + "\""
  }

  const OPENING: string := "{\"errors\":{"

  function Joined(es: seq<Entry>): string
    decreases |es|
  {
    if es == [] then "" else if |es| == 1 then Text(es[0]) else Text(es[0]) + "," + Joined(es[1..])
  }

  /** An error report before its closing braces; without entries the buffer is empty. */
  function Render(es: seq<Entry>): string {
    if es == [] then "" else OPENING + Joined(es)
  }

  function Added(any: bool, e: Entry): string {
    (if any then "," else OPENING) + Text(e)
  }

  lemma {:induction false} JoinedOneMore(es: seq<Entry>, e: Entry)
    requires es != []
    ensures Joined(es + [e]) == Joined(es) + ("," + Text(e))
    decreases |es|
  {
    hide Text;
    if |es| == 1 {
      assert (es + [e])[1..] == [e];
    } else {
      assert (es + [e])[1..] == es[1..] + [e];
      JoinedOneMore(es[1..], e);
      assert Text(es[0]) + "," + (Joined(es[1..]) + ("," + Text(e)))
          == (Text(es[0]) + "," + Joined(es[1..])) + ("," + Text(e));
    }
  }

  lemma RenderOneMore(es: seq<Entry>, e: Entry)
    ensures Render(es + [e]) == Render(es) + Added(es != [], e)
  {
    hide Text;
    if es == [] {
      assert es + [e] == [e] && "" + Added(false, e) == Added(false, e);
    } else {
      JoinedOneMore(es, e);
      assert OPENING + (Joined(es) + ("," + Text(e))) == (OPENING + Joined(es)) + ("," + Text(e));
    }
  }

  /** An entry that does not fit in full is left out. */
  function Keep(kept: seq<Entry>, e: Entry): seq<Entry> {
    if |Render(kept)| + |Added(kept != [], e)| < SIZE - RESERVE then kept + [e] else kept
  }

  function KeepAll(kept: seq<Entry>, es: seq<Entry>): seq<Entry>
    decreases |es|
  {
    if es == [] then kept else KeepAll(Keep(kept, es[0]), es[1..])
  }

  lemma {:induction false} KeepOneMore(kept: seq<Entry>, es: seq<Entry>, e: Entry)
    ensures KeepAll(kept, es + [e]) == Keep(KeepAll(kept, es), e)
    decreases |es|
  {
    hide Keep;
    if es == [] {
      assert (es + [e])[1..] == [];
    } else {
      assert (es + [e])[1..] == es[1..] + [e];
      KeepOneMore(Keep(kept, es[0]), es[1..], e);
    }
  }

  /** Short enough to fit into the empty buffer. */
  predicate Short(e: Entry) {
    |e.field| + |e.message| + 16 < SIZE - RESERVE
  }

  lemma AddedLength(any: bool, e: Entry)
    ensures |Added(any, e)| == |e.field| + |e.message| + if any then 6 else 16
  {
  }

  class Errors {
    var json: string     // the buffer up to its NUL
    var length: nat
    var any: bool
    ghost var kept: seq<Entry>
    ghost var reported: seq<Entry>

    ghost predicate Valid()
      reads this
    {
      && json == Render(kept) && length == |json| && length < SIZE - RESERVE && (any <==> kept != [])
      && kept == KeepAll([], reported)
    }

    constructor ()
      ensures Valid() && kept == reported == []
    {
      json, length, any := "", 0, false;
      kept, reported := [], [];
    }

    lemma FlagMeansKept()
      requires Valid()
      ensures any <==> KeepAll([], reported) != []
    {
    }

    /** The half-written entry is cut off again. */
    method Add(field: string, message: string)
      requires Valid()
      modifies this
      ensures Valid() && kept == Keep(old(kept), Entry(field, message))
      ensures reported == old(reported) + [Entry(field, message)]
      ensures old(any) || Short(Entry(field, message)) ==> any
    {
      AddedLength(any, Entry(field, message));
      KeepOneMore([], reported, Entry(field, message));
      hide Text, Joined, KeepAll;
      reported := reported + [Entry(field, message)];
      var text := Added(any, Entry(field, message));
      var written := |text|;
      RenderOneMore(kept, Entry(field, message));
      json := json + text[..Min(written, SIZE - length - RESERVE - 1)];
      if length + written < SIZE - RESERVE {
        length := length + written;
        kept := kept + [Entry(field, message)];
      } else {
        json := json[..length];
        if !any { return; }
      }
      any := true;
    }

    /** The closing braces always fit, with their NUL. */
    method Finish() returns (report: string)
      requires Valid()
      modifies this
      ensures report == Render(old(kept)) + "}}" && |report| + 1 < SIZE
      ensures old(kept) == KeepAll([], old(reported))
    {
      var closing := "}}";
      json := json + closing[..Min(2, SIZE - length - 1)];
      return json;
    }
  }

  lemma {:induction false} SomethingStays(kept: seq<Entry>, es: seq<Entry>)
    ensures KeepAll(kept, es) != [] <==> kept != [] || exists i | 0 <= i < |es| :: Short(es[i])
    decreases |es|
  {
    if es != [] {
      SomethingStays(Keep(kept, es[0]), es[1..]);
      assert |Text(es[0])| == |es[0].field| + |es[0].message| + 5;
      if exists i | 0 <= i < |es| :: Short(es[i]) {
        var i :| 0 <= i < |es| && Short(es[i]);
        if i > 0 { assert Short(es[1..][i - 1]); }
      }
      forall i | 0 <= i < |es| - 1 && Short(es[1..][i]) ensures Short(es[i + 1]) {}
    }
  }

  /** The flag is set exactly when some error was short, whatever did not fit later. */
  lemma FirstShortErrorCounts(es: seq<Entry>)
    ensures KeepAll([], es) != [] <==> exists i | 0 <= i < |es| :: Short(es[i])
  {
    hide Short, KeepAll;
    SomethingStays([], es);
  }

  /** The room that entries take, with their punctuation. */
  function Room(es: seq<Entry>): nat
    decreases |es|
  {
    if es == [] then 0 else |es[0].field| + |es[0].message| + 6 + Room(es[1..])
  }

  lemma {:induction false} RoomOfBoth(a: seq<Entry>, b: seq<Entry>)
    ensures Room(a + b) == Room(a) + Room(b)
    decreases |a|
  {
    if a == [] {
      assert a + b == b;
    } else {
      assert (a + b)[1..] == a[1..] + b;
      RoomOfBoth(a[1..], b);
    }
  }

  /** What the next entry finds taken, its comma and the opening included. */
  function Taken(kept: seq<Entry>): nat {
    if kept == [] then 10 else |Render(kept)|
  }

  lemma OneMoreFits(kept: seq<Entry>, e: Entry)
    requires Taken(kept) + Room([e]) < SIZE - RESERVE
    ensures Keep(kept, e) == kept + [e] && Taken(kept + [e]) == Taken(kept) + Room([e])
  {
    AddedLength(kept != [], e);
    RenderOneMore(kept, e);
    assert Room([e]) == |e.field| + |e.message| + 6;
    hide Added, Room;
  }

  /** Errors for which there is room in all are all kept, whatever their order. */
  lemma {:induction false} EnoughRoom(kept: seq<Entry>, es: seq<Entry>)
    requires Taken(kept) + Room(es) < SIZE - RESERVE
    ensures KeepAll(kept, es) == kept + es
    decreases |es|
  {
    if es == [] {
      assert kept + es == kept;
    } else {
      assert es == [es[0]] + es[1..];
      RoomOfBoth([es[0]], es[1..]);
      OneMoreFits(kept, es[0]);
      EnoughRoom(kept + [es[0]], es[1..]);
      Associates(kept, [es[0]], es[1..]);
      hide Keep, Taken, Room;
    }
  }
}

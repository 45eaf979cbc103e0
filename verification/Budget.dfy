/** How many more bytes the parts of one document may unpack to, all of them together. */
module Budgets {

  type Bytes = seq<bv8>

  datatype ReadEnd = More | AtEnd | OverBudget

  /** A part as its decompressor hands it out: at least a byte at a time while there are any, at most as
      many as asked for; pace is how many it has ready. */
  class Part {
    const content: Bytes
    var at: nat

    constructor (content: Bytes)
      ensures this.content == content && at == 0
    {
      this.content := content;
      at := 0;
    }

    method Read(room: nat, pace: nat) returns (bytes: Bytes, end: bool)
      requires at <= |content|
      modifies this
      ensures old(at) <= at <= |content| && bytes == content[old(at)..at] && |bytes| <= room
      ensures end <==> old(at) == |content|
      ensures old(at) < |content| && room > 0 ==> |bytes| > 0
    {
      if at == |content| {
        return [], true;
      }
      var n := if pace == 0 then 1 else pace;
      n := if n > room then room else n;
      n := if n > |content| - at then |content| - at else n;
      bytes := content[at..at + n];
      at := at + n;
      return bytes, false;
    }
  }

  class Budget {
    var left: int

    constructor (left: int)
      ensures this.left == left
    {
      this.left := left;
    }

    /** One read of a part through the budget: what is handed out is paid for, byte by byte, and a part
        that goes on once the budget is spent is refused. */
    method Read(part: Part, room: nat, pace: nat) returns (bytes: Bytes, end: ReadEnd)
      requires part.at <= |part.content| && left >= 0
      modifies this, part
      ensures old(part.at) <= part.at <= |part.content| && left >= 0
      ensures |bytes| == old(left) - left && |bytes| <= room
      ensures end.More? ==> bytes == part.content[old(part.at)..part.at]
      ensures end.AtEnd? ==> bytes == [] && old(part.at) == part.at == |part.content|
      ensures end.OverBudget? <==> old(left) == 0 && old(part.at) < |part.content|
      ensures end.OverBudget? ==> bytes == []
      ensures end.More? && room > 0 ==> |bytes| > 0
    {
      if left <= 0 {
        var probe, over := part.Read(1, 1);
        if |probe| == 0 && over {
          return [], AtEnd;
        }
        return [], OverBudget;
      }
      var r := if room > left then left else room;
      var got, over := part.Read(r, pace);
      left := left - |got|;
      return got, if over then AtEnd else More;
    }

    /** A part read to its end, by reads of any size at any pace: got whole and paid for, or refused
        exactly when it is larger than what is left, having handed out no more than that. */
    method ReadAll(content: Bytes, room: nat, pace: nat -> nat) returns (got: Bytes, ok: bool)
      requires room > 0 && left >= 0
      modifies this
      ensures ok <==> |content| <= old(left)
      ensures got == if ok then content else content[..old(left)]
      ensures left == old(left) - |got| && left >= 0
    {
      var part := new Part(content);
      got, ok := [], true;
      var turn := 0;
      var more := true;
      while more
        invariant part.content == content && part.at <= |content| && got == content[..part.at]
        invariant left == old(left) - |got| && left >= 0
        invariant ok && (!more ==> part.at == |content|)
        decreases |content| - part.at, more
      {
        var bytes, end := Read(part, room, pace(turn));
        turn := turn + 1;
        match end {
          case More => got := got + bytes;
          case AtEnd => more := false;
          case OverBudget => return got, false;
        }
      }
    }

    /** Every part of a document, in turn: together they draw exactly their sizes, or are refused exactly
        when those together pass the budget, having drawn no more than it. */
    method ReadDocument(parts: seq<Bytes>, room: nat, pace: nat -> nat) returns (got: seq<Bytes>, ok: bool)
      requires room > 0 && left >= 0
      modifies this
      ensures ok <==> Total(parts) <= old(left)
      ensures ok ==> got == parts
      ensures Total(got) == old(left) - left && left >= 0
    {
      got, ok := [], true;
      assert parts[..0] == [];
      for i := 0 to |parts|
        invariant got == parts[..i] && ok && left == old(left) - Total(parts[..i]) && left >= 0
      {
        assert parts[..i + 1] == parts[..i] + [parts[i]];
        TotalOfOneMore(parts[..i], parts[i]);
        TotalOfMore(parts, i + 1);
        var bytes, whole := ReadAll(parts[i], room, pace);
        TotalOfOneMore(parts[..i], bytes);
        got := got + [bytes];
        if !whole {
          return got, false;
        }
      }
      assert parts[..|parts|] == parts;
    }
  }

  function Total(parts: seq<Bytes>): nat {
    if parts == [] then 0 else |parts[0]| + Total(parts[1..])
  }

  lemma {:induction false} TotalOfOneMore(parts: seq<Bytes>, last: Bytes)
    ensures Total(parts + [last]) == Total(parts) + |last|
  {
    if parts != [] {
      assert (parts + [last])[1..] == parts[1..] + [last];
      TotalOfOneMore(parts[1..], last);
    }
  }

  lemma {:induction false} TotalOfMore(parts: seq<Bytes>, n: nat)
    requires n <= |parts|
    ensures Total(parts[..n]) <= Total(parts)
    decreases |parts| - n
  {
    if n == |parts| {
      assert parts[..n] == parts;
    } else {
      assert parts[..n + 1] == parts[..n] + [parts[n]];
      TotalOfOneMore(parts[..n], parts[n]);
      TotalOfMore(parts, n + 1);
    }
  }
}

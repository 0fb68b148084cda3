/** queue.go: a buffered channel with a peek slot in front of it. */
module LogQueue {
  import opened LogLines

  datatype Slot = Nothing | Line(line: LogLine)

  /** The queue as a value: the peek slot and the channel's buffer. */
  datatype Contents = Contents(head: Slot, buffered: seq<LogLine>) {

    /** Everything enqueued and not yet dequeued, oldest first. */
    function All(): (r: seq<LogLine>)
    {
      (if head.Line? then [head.line] else []) + buffered
    }

    predicate IsEmpty() { head.Nothing? && buffered == [] }

    function Front(): (r: Slot)
      ensures r == if All() == [] then Nothing else Line(All()[0])
      ensures r.Nothing? <==> IsEmpty()
    {
      if head.Line? then head else if buffered == [] then Nothing else Line(buffered[0])
    }

    /** Peeking moves the front line into the slot and changes nothing a reader can see. */
    function Peeked(): (r: Contents)
      ensures r.All() == All() && r.head == Front()
    {
      if head.Line? || buffered == [] then this else Contents(Line(buffered[0]), buffered[1..])
    }

    function Dequeued(): (r: Contents)
      ensures r.All() == if All() == [] then [] else All()[1..]
      ensures |r.buffered| <= |buffered|
    {
      if head.Line? then Contents(Nothing, buffered)
      else if buffered == [] then this
      else Contents(Nothing, buffered[1..])
    }

    function Enqueued(line: LogLine): (r: Contents)
      ensures r.All() == All() + [line]
    {
      Contents(head, buffered + [line])
    }
  }

  class Queue {
    var head: Slot
    var c: seq<LogLine>
    const size: nat

    ghost predicate Valid()
      reads this
    {
      |c| <= size
    }

    function View(): (v: Contents)
      reads this
    {
      Contents(head, c)
    }

    constructor (size: nat)
      ensures Valid() && this.size == size && View().All() == []
    {
      this.size := size;
      head := Nothing;
      c := [];
    }

    method Peek() returns (r: Slot)
      requires Valid()
      modifies this
      ensures Valid() && View() == old(View()).Peeked()
      ensures r == old(View()).Front()
    {
      if head.Line? {
        return head;
      }
      if |c| > 0 {
        head := Line(c[0]);
        c := c[1..];
      } else {
        head := Nothing;
      }
      r := head;
    }

    method Dequeue() returns (r: Slot)
      requires Valid()
      modifies this
      ensures Valid() && View() == old(View()).Dequeued()
      ensures r == old(View()).Front()
    {
      if head.Line? {
        r := head;
        head := Nothing;
      } else if |c| > 0 {
        r := Line(c[0]);
        c := c[1..];
      } else {
        r := Nothing;
      }
    }

    method Empty() returns (r: bool)
      requires Valid()
      ensures r <==> View().All() == []
    {
      r := !head.Line? && |c| == 0;
    }

    /** Enqueue waits until the context is done or the channel has room; when both hold,
        Go picks either case (`choice`). */
    method Enqueue(done: bool, choice: bool, line: LogLine) returns (ok: bool)
      requires Valid() && (done || |c| < size)
      modifies this
      ensures Valid()
      ensures ok <==> |old(c)| < size && !(done && choice)
      ensures View() == if ok then old(View()).Enqueued(line) else old(View())
    {
      if done && (choice || |c| >= size) {
        ok := false;
      } else {
        c := c + [line];
        ok := true;
      }
    }
  }

  /** `queues.Empty`. */
  method AllEmpty(qs: seq<Queue>) returns (r: bool)
    requires forall i :: 0 <= i < |qs| ==> qs[i].Valid()
    ensures r <==> forall i :: 0 <= i < |qs| ==> qs[i].View().All() == []
  {
    for i := 0 to |qs|
      invariant forall k :: 0 <= k < i ==> qs[k].View().All() == []
    {
      var e := qs[i].Empty();
      if !e {
        return false;
      }
    }
    r := true;
  }
}

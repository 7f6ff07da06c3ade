/** A channel: one file descriptor and the events its owner is interested in. */
module Channel {

  /** The interest bits a channel sets; revents is left to the kernel. */
  datatype Interest = Interest(read: bool, write: bool)

  const NONE := Interest(false, false)

  class Channel {
    const fd: int
    var events: Interest
    var revents: int
    /** A poller's own mark. */
    var index: int

    constructor (fd: int)
      requires fd >= 0
      ensures this.fd == fd && events == NONE && revents == 0 && index == -1
    {
      this.fd := fd;
      events, revents, index := NONE, 0, -1;
    }

    predicate IsNoneEvent()
      reads this
    {
      events == NONE
    }
  }

  /** What an owner asks of one of its channels. */
  datatype Request = EnableReading | EnableWriting | DisableWriting | DisableAll | Remove

  function Wanted(r: Request, e: Interest): Interest {
    match r
    case EnableReading => e.(read := true)
    case EnableWriting => e.(write := true)
    case DisableWriting => e.(write := false)
    case DisableAll => NONE
    case Remove => e
  }

  /** What an owner wants after its requests. */
  function WantedAfter(rs: seq<Request>, e: Interest): Interest {
    if rs == [] then e else Wanted(rs[|rs| - 1], WantedAfter(rs[..|rs| - 1], e))
  }

  /** Of the requests about reading the last one counts, and so of those about writing. */
  predicate Reads(rs: seq<Request>, before: bool) {
    if rs == [] then before
    else match rs[|rs| - 1]
         case EnableReading => true
         case DisableAll => false
         case _ => Reads(rs[..|rs| - 1], before)
  }

  predicate Writes(rs: seq<Request>, before: bool) {
    if rs == [] then before
    else match rs[|rs| - 1]
         case EnableWriting => true
         case DisableWriting => false
         case DisableAll => false
         case _ => Writes(rs[..|rs| - 1], before)
  }

  lemma {:induction false} WantedExactly(rs: seq<Request>, e: Interest)
    ensures WantedAfter(rs, e).read == Reads(rs, e.read) && WantedAfter(rs, e).write == Writes(rs, e.write)
  {
    if rs != [] {
      WantedExactly(rs[..|rs| - 1], e);
    }
  }

  lemma WantedNext(rs: seq<Request>, r: Request, e: Interest)
    ensures WantedAfter(rs + [r], e) == Wanted(r, WantedAfter(rs, e))
  {
    assert (rs + [r])[..|rs|] == rs;
  }
}

/**
 * The channel abstraction `basic_channel` of logxx.hpp: a destination with
 * a stream to write to and a `flush`.  A channel is modelled by what it has
 * received: text already pushed out by a flush (`delivered`) and text still
 * buffered (`pending`), together with the number of flushes so far.
 */
module Channels {

  /** The console or file channel a `Channel` stands for; only the console channel is ever created implicitly. */
  datatype ChannelKind = Console | File(path: string)

  class Channel {
    const kind: ChannelKind
    var delivered: seq<string>
    var pending: seq<string>
    var flushes: nat

    constructor (kind: ChannelKind)
      ensures this.kind == kind
      ensures delivered == [] && pending == [] && flushes == 0
    {
      this.kind := kind;
      delivered, pending, flushes := [], [], 0;
    }

    /** Everything written to the channel's stream, in order. */
    function Written(): seq<string>
      reads this
    {
      delivered + pending
    }

    /** `stream() << text`: appends to the buffered text. */
    method Write(text: string)
      modifies this
      ensures pending == old(pending) + [text]
      ensures delivered == old(delivered) && flushes == old(flushes)
      ensures Written() == old(Written()) + [text]
    {
      pending := pending + [text];
    }

    /** `flush()`: pushes out everything buffered; nothing written is lost. */
    method Flush()
      modifies this
      ensures delivered == old(delivered) + old(pending) && pending == []
      ensures flushes == old(flushes) + 1
      ensures Written() == old(Written())
    {
      delivered, pending := delivered + pending, [];
      flushes := flushes + 1;
    }
  }

  /**
   * The `std::ostream&` the write path hands back: the channel's own stream,
   * or the process-wide null stream that swallows whatever is streamed into it.
   */
  datatype Sink = Real(ch: Channel) | Null

  /** `sink << text`. */
  method Append(sink: Sink, text: string)
    modifies if sink.Real? then {sink.ch} else {}
    ensures sink.Real? ==> sink.ch.pending == old(sink.ch.pending) + [text]
    ensures sink.Real? ==> sink.ch.delivered == old(sink.ch.delivered) && sink.ch.flushes == old(sink.ch.flushes)
    ensures sink.Real? ==> sink.ch.Written() == old(sink.ch.Written()) + [text]
  {
    if sink.Real? {
      sink.ch.Write(text);
    }
  }
}

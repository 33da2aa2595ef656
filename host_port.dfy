/** The serial port object the drivers talk through (a pySerial Serial
    in the source): write() appends to what the board receives, readline()
    takes the next line the board sent. */
module HostPort {
  import opened DriverProtocol

  class SerialPort {
    var written: string
    var replies: seq<string>

    function State(): PortState
      reads this
    {
      PortState(written, replies)
    }

    /** A port on which nothing has been written yet and the board will
        send the given lines. */
    constructor (replies: seq<string>)
      ensures State() == PortState("", replies)
    {
      written := "";
      this.replies := replies;
    }

    method Write(text: string)
      modifies this
      ensures State() == Send(old(State()), text)
    {
      written := written + text;
    }

    /** readline(): the next line, or nothing on a timeout. */
    method ReadLine() returns (line: string)
      modifies this
      ensures line == NextLine(old(State()))
      ensures State() == Consume(old(State()))
    {
      if |replies| == 0 {
        line := "";
      } else {
        line := replies[0];
        replies := replies[1..];
      }
    }
  }
}

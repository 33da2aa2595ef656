/** FbibxxIoBoard (driver/fbibxx.py): the older driver the UXIBxx one
    grew from. It speaks the same protocol, method for method, but its
    __init__ takes no expected model or ID and so never checks the
    board's identity. */
module FbibxxDriver {
  import opened Wrappers
  import opened PyText
  import opened DriverProtocol
  import opened HostPort
  import opened DriverSteps

  class FbibxxIoBoard {
    const serPort: SerialPort
    var boardModel: string
    var boardId: string
    var terminalCapabilities: Capabilities

    /** What the object knows about its board. */
    function Info(): BoardInfo
      reads this
    {
      BoardInfo(boardModel, boardId, terminalCapabilities)
    }

    /** The object as __init__ starts on it: bound to its port, nothing
        learned yet. */
    constructor Attach(serPort: SerialPort)
      ensures this.serPort == serPort
      ensures Info() == BoardInfo("", "", [])
    {
      this.serPort := serPort;
      boardModel := "";
      boardId := "";
      terminalCapabilities := [];
    }

    /** __init__: the same exchanges as the UXIBxx driver's __init__
        with no identity expectations; construction raises, or yields a
        board whose identity and capabilities are those Connect
        computes. */
    static method Open(serPort: SerialPort) returns (r: Outcome<FbibxxIoBoard>)
      modifies serPort
      ensures var x := Connect(old(serPort.State()), None, None);
              serPort.State() == x.port && r.Ok? == x.outcome.Ok? &&
              (r.Ok? ==> fresh(r.value) && r.value.serPort == serPort && r.value.Info() == x.outcome.value) &&
              (r.Err? ==> r.error == x.outcome.error && !r.error.IdMismatch?)
    {
      ConnectNeverMismatches(old(serPort.State()));
      var board := new FbibxxIoBoard.Attach(serPort);
      var ident := board.Identify();
      if ident.Err? {
        return Err(ident.error);
      }
      board.boardModel := ident.value.0;
      board.boardId := ident.value.1;
      var termNos := board.GetTermNos();
      if termNos.Err? {
        return Err(termNos.error);
      }
      var caps := board.QueryCapabilities(termNos.value);
      if caps.Err? {
        return Err(caps.error);
      }
      board.terminalCapabilities := caps.value;
      return Ok(board);
    }

    /** The first statement of __init__: the IDN answer unpacked into the
        board model and ID. */
    method Identify() returns (r: Outcome<(string, string)>)
      modifies serPort
      ensures Exchange(r, serPort.State()) == DriverProtocol.Identify(old(serPort.State()))
    {
      var idn := Ask("IDN");
      if idn.Err? {
        return Err(idn.error);
      }
      var fields := Split(idn.value, ',');
      if |fields| != 2 {
        return Err(ValueError(idn.value));
      }
      return Ok((fields[0], fields[1]));
    }

    /** The dict comprehension at the end of __init__: one TCP query per
        listed terminal. */
    method QueryCapabilities(termNos: seq<int>) returns (r: Outcome<Capabilities>)
      modifies serPort
      ensures Exchange(r, serPort.State()) == DriverProtocol.QueryCapabilities(old(serPort.State()), termNos, [])
    {
      var caps: Capabilities := [];
      for i := 0 to |termNos|
        invariant DriverProtocol.QueryCapabilities(serPort.State(), termNos[i..], caps) ==
                  DriverProtocol.QueryCapabilities(old(serPort.State()), termNos, [])
      {
        var c := Ask("TCP:" + IntText(termNos[i]));
        if c.Err? {
          return Err(c.error);
        }
        assert termNos[i..][1..] == termNos[i + 1..];
        caps := DictSet(caps, termNos[i], c.value);
      }
      return Ok(caps);
    }

    /** _get_term_nos. */
    method GetTermNos() returns (r: Outcome<seq<int>>)
      modifies serPort
      ensures Exchange(r, serPort.State()) == TermNos(old(serPort.State()))
    {
      var response := Ask("TLS");
      if response.Err? {
        return Err(response.error);
      }
      var termNos := ParsePieces(Split(response.value, ','));
      if termNos.None? {
        return Err(BadResponse(response.value));
      }
      return Ok(termNos.value);
    }

    /** _read_response. */
    method ReadResponse() returns (r: Outcome<string>)
      modifies serPort
      ensures Exchange(r, serPort.State()) == DriverProtocol.ReadResponse(old(serPort.State()))
    {
      var response := serPort.ReadLine();
      if !EndsWith(response, "\n") {
        return Err(ResponseTimeout);
      }
      response := Strip(response);
      if StartsWith(response, "ERROR") {
        return Err(RemoteError(response));
      }
      return Ok(response);
    }

    /** _ask. */
    method Ask(cmd: string) returns (r: Outcome<string>)
      modifies serPort
      ensures Exchange(r, serPort.State()) == DriverProtocol.Ask(old(serPort.State()), cmd)
    {
      serPort.Write(cmd + "?\r");
      var response := ReadResponse();
      if response.Err? {
        return response;
      }
      if '=' !in response.value {
        return Err(BadResponse(response.value));
      }
      return Ok(AfterLast(response.value, '='));
    }

    /** _tell. */
    method Tell(cmd: string) returns (r: Outcome<()>)
      modifies serPort
      ensures Exchange(r, serPort.State()) == DriverProtocol.Tell(old(serPort.State()), cmd)
    {
      serPort.Write(cmd + "\r");
      var response := ReadResponse();
      if response.Err? {
        return Err(response.error);
      }
      if response.value != "OK" {
        return Err(BadResponse(response.value));
      }
      return Ok(());
    }

    /** get_input, with _check_input_ok written out inline. */
    method GetInput(n: int) returns (r: Outcome<bool>)
      modifies serPort
      ensures Exchange(r, serPort.State()) == DriverProtocol.GetInput(terminalCapabilities, old(serPort.State()), n)
    {
      if n !in Keys(terminalCapabilities) {
        return Err(InvalidTerminalNo(n));
      }
      if n !in DriverProtocol.InputNos(terminalCapabilities) {
        return Err(Unsupported(n));
      }
      var answer := Ask("INP:" + IntText(n));
      r := AnswerToBool(answer);
    }

    /** get_output. */
    method GetOutput(n: int) returns (r: Outcome<bool>)
      modifies serPort
      ensures Exchange(r, serPort.State()) == DriverProtocol.GetOutput(terminalCapabilities, old(serPort.State()), n)
    {
      var check := CheckOutputOk(terminalCapabilities, n);
      if check.Some? {
        return Err(check.value);
      }
      var answer := Ask("OUT:" + IntText(n));
      r := AnswerToBool(answer);
    }

    /** set_output: on is an int or a bool, bool(on) being on != 0. */
    method SetOutput(n: int, on: int) returns (r: Outcome<()>)
      modifies serPort
      ensures Exchange(r, serPort.State()) == DriverProtocol.SetOutput(terminalCapabilities, old(serPort.State()), n, on)
    {
      var check := CheckOutputOk(terminalCapabilities, n);
      if check.Some? {
        return Err(check.value);
      }
      r := Tell("OUT:" + IntText(n) + "=" + (if on != 0 then "1" else "0"));
    }

    /** get_direction. */
    method GetDirection(n: int) returns (r: Outcome<IoDirection>)
      modifies serPort
      ensures Exchange(r, serPort.State()) == DriverProtocol.GetDirection(terminalCapabilities, old(serPort.State()), n)
    {
      if n !in Keys(terminalCapabilities) {
        return Err(InvalidTerminalNo(n));
      }
      var response := Ask("DIR:" + IntText(n));
      if response.Err? {
        return Err(response.error);
      }
      var dirInt := ParseInt(response.value);
      if dirInt.None? {
        return Err(BadResponse(response.value));
      }
      var d := DirectionFromCode(dirInt.value);
      if d.None? {
        return Err(BadResponse(response.value));
      }
      return Ok(d.value);
    }

    /** set_direction. */
    method SetDirection(n: int, direction: DirectionArg) returns (r: Outcome<()>)
      modifies serPort
      ensures Exchange(r, serPort.State()) ==
                DriverProtocol.SetDirection(terminalCapabilities, old(serPort.State()), n, direction)
    {
      var check := CheckDirchangeOk(terminalCapabilities, n);
      if check.Some? {
        return Err(check.value);
      }
      var d := DirectionOf(direction);
      if d.None? {
        return Err(ValueError(if direction.Literal? then direction.text else ""));
      }
      var dirCode := DirectionCode(d.value);
      r := Tell("DIR:" + IntText(n) + "=" + IntText(dirCode));
    }

    /** terminal_nos. */
    function TerminalNos(): seq<int>
      reads this
    {
      Keys(terminalCapabilities)
    }

    /** input_nos. */
    function InputNos(): seq<int>
      reads this
    {
      DriverProtocol.InputNos(terminalCapabilities)
    }

    /** output_nos. */
    function OutputNos(): seq<int>
      reads this
    {
      DriverProtocol.OutputNos(terminalCapabilities)
    }
  }
}

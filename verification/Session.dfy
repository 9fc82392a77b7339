/** The data connection of one FTP client over a whole session (ftpvita.c).
    What the kernel and the file system answer is given with each command. */
module Session {

  datatype ConnectionType = NoConnection | Active | Passive

  /** The sockets the kernel has open, and a log of every one created and closed. */
  class Kernel {
    var open: set<int>
    var created: multiset<int>
    var closed: multiset<int>

    ghost predicate Balanced()
      reads this
    {
      && created == closed + multiset(open)
      && forall fd | fd in open :: fd >= 0
    }

    constructor ()
      ensures Balanced() && open == {} && created == multiset{} && closed == multiset{}
    {
      open, created, closed := {}, multiset{}, multiset{};
    }

    /** sceNetSocket or sceNetAccept: an error, or a descriptor that is not open yet. */
    method Create(answer: int) returns (fd: int)
      requires Balanced()
      modifies this
      ensures Balanced() && closed == old(closed)
      ensures fd >= 0 <==> answer >= 0 && answer !in old(open)
      ensures fd < 0 ==> open == old(open) && created == old(created)
      ensures fd >= 0 ==> fd == answer && open == old(open) + {fd} && created == old(created) + multiset{fd}
    {
      fd := if answer in open then -1 else answer;
      if fd >= 0 {
        open, created := open + {fd}, created + multiset{fd};
      }
    }

    /** sceNetSocketClose, which is only ever right on an open socket. */
    method Close(fd: int)
      requires Balanced() && fd in open
      modifies this
      ensures Balanced() && created == old(created)
      ensures open == old(open) - {fd} && closed == old(closed) + multiset{fd}
    {
      open, closed := open - {fd}, closed + multiset{fd};
    }
  }

  /** What happens during a transfer command, besides the data connection. */
  datatype LinkOutcome = LinkOutcome(connect: int, accept: int)

  datatype Command =
    | Pasv(socket: int, bind: int, listen: int, name: int)
    | Port(wellFormed: bool, socket: int)
    | Rest(offset: nat)
    | List(admitted: bool, atRoot: bool, dir: int, link: LinkOutcome)
    | Retr(admitted: bool, fd: int, extent: int, position: int, memory: bool, link: LinkOutcome)
    | Stor(admitted: bool, fd: int, memory: bool, link: LinkOutcome)
    | Appe(admitted: bool, fd: int, memory: bool, link: LinkOutcome)
    | Other

  const APPEND_MARK := 0xffff_ffff

  // ---- what the commands come to ----

  /** A client between commands: its connection, the socket of it, and the restart offset. */
  datatype Line = Line(connection: ConnectionType, socket: int, restorePoint: nat)

  function Unconnected(l: Line): Line {
    l.(connection := NoConnection, socket := -1)
  }

  /** The socket that a transfer accepts, if it gets as far as opening a passive connection. */
  function Accepted(l: Line, link: LinkOutcome): multiset<int> {
    if l.connection == Passive && link.accept >= 0 && link.accept != l.socket then multiset{link.accept} else multiset{}
  }

  /** client_open_data_connection succeeds. */
  predicate Opens(l: Line, link: LinkOutcome) {
    match l.connection
    case NoConnection => false
    case Active => link.connect >= 0
    case Passive => link.accept >= 0 && link.accept != l.socket
  }

  /** Whether a transfer gets as far as its data connection. */
  predicate Reaches(l: Line, c: Command) {
    match c
    case List(admitted, atRoot, dir, _) => admitted && (atRoot || dir >= 0)
    case Retr(admitted, fd, extent, position, memory, _) =>
      admitted && fd >= 0 && l.restorePoint <= extent && position == l.restorePoint && memory
    case Stor(admitted, fd, memory, _) => admitted && fd >= 0 && memory
    case Appe(admitted, fd, memory, _) => admitted && fd >= 0 && memory
    case _ => false
  }

  /** The data sockets that a command creates. */
  function Sockets(l: Line, c: Command): multiset<int> {
    match c
    case Pasv(socket, _, _, _) => if socket >= 0 then multiset{socket} else multiset{}
    case Port(wellFormed, socket) => if wellFormed && socket >= 0 then multiset{socket} else multiset{}
    case Rest(_) => multiset{}
    case Other => multiset{}
    case _ => if Reaches(l, c) then Accepted(l, c.link) else multiset{}
  }

  function After(l: Line, c: Command): Line {
    match c
    case Pasv(socket, bind, listen, name) =>
      if socket >= 0 && bind >= 0 && listen >= 0 && name >= 0 then l.(connection := Passive, socket := socket) else Unconnected(l)
    case Port(wellFormed, socket) =>
      if !wellFormed then l else if socket >= 0 then l.(connection := Active, socket := socket) else Unconnected(l)
    case Rest(offset) => l.(restorePoint := offset)
    case List(_, _, _, _) => Unconnected(l)
    case Retr(_, _, _, _, _, _) => Unconnected(l).(restorePoint := 0)
    case Stor(_, _, _, link) =>
      Unconnected(l).(restorePoint := if Reaches(l, c) && Opens(l, link) then 0 else l.restorePoint)
    case Appe(_, _, _, link) => Unconnected(l).(restorePoint := if Reaches(l, c) && Opens(l, link) then 0 else APPEND_MARK)
    case Other => l
  }

  lemma StorIs(l: Line, c: Command)
    requires c.Stor?
    ensures var reached := c.admitted && c.fd >= 0 && c.memory;
      && After(l, c) == Unconnected(l).(restorePoint := if reached && Opens(l, c.link) then 0 else l.restorePoint)
      && Sockets(l, c) == if reached then Accepted(l, c.link) else multiset{}
  {
  }

  lemma RetrIs(l: Line, c: Command)
    requires c.Retr?
    ensures After(l, c) == Unconnected(l.(restorePoint := 0))
    ensures Sockets(l, c) ==
      if c.admitted && c.fd >= 0 && l.restorePoint <= c.extent && c.position == l.restorePoint && c.memory
      then Accepted(l.(restorePoint := 0), c.link) else multiset{}
  {
  }

  function LineAfter(commands: seq<Command>): Line {
    if commands == [] then Line(NoConnection, -1, 0)
    else After(LineAfter(commands[..|commands| - 1]), commands[|commands| - 1])
  }

  /** The data sockets that a session creates. */
  function AllSockets(commands: seq<Command>): multiset<int> {
    if commands == [] then multiset{}
    else
      var front := commands[..|commands| - 1];
      AllSockets(front) + Sockets(LineAfter(front), commands[|commands| - 1])
  }

  // ---- the same, by the places of the commands in a session ----

  /** Commands that settle what the next transfer finds: all but REST, a PORT with a malformed
      argument, and those that have nothing to do with transfers. */
  ghost predicate Settles(c: Command) {
    !c.Rest? && !c.Other? && !(c.Port? && !c.wellFormed)
  }

  /** The place of the last command before i that settles it, or -1. */
  ghost function LastSettling(cs: seq<Command>, i: nat): (j: int)
    requires i <= |cs|
    ensures -1 <= j < i && (j >= 0 ==> Settles(cs[j])) && forall k | j < k < i :: !Settles(cs[k])
  {
    if i == 0 then -1 else if Settles(cs[i - 1]) then i - 1 else LastSettling(cs, i - 1)
  }

  /** How a transfer at a place gets its data connection: it connects a socket, or accepts on one. */
  datatype Way = NoWay | Connect(socket: int) | Accept(socket: int)

  /** A PASV whose four calls succeed is to be accepted on, a PORT with a socket to be connected. */
  ghost function WayAt(cs: seq<Command>, i: nat): Way
    requires i <= |cs|
  {
    var j := LastSettling(cs, i);
    if j < 0 then NoWay
    else
      match cs[j]
      case Pasv(socket, bind, listen, name) =>
        if socket >= 0 && bind >= 0 && listen >= 0 && name >= 0 then Accept(socket) else NoWay
      case Port(_, socket) => if socket >= 0 then Connect(socket) else NoWay
      case _ => NoWay
  }

  /** A transfer at i accepts fd. */
  ghost predicate AcceptsAt(cs: seq<Command>, i: nat, link: LinkOutcome, fd: int)
    requires i <= |cs|
  {
    WayAt(cs, i).Accept? && link.accept == fd && fd >= 0 && fd != WayAt(cs, i).socket
  }

  /** The upload at i has a file, a buffer and a data connection. */
  ghost predicate Uploads(cs: seq<Command>, i: nat)
    requires i < |cs|
  {
    var c := cs[i];
    && (c.Stor? || c.Appe?) && c.admitted && c.fd >= 0 && c.memory
    && (AcceptsAt(cs, i, c.link, c.link.accept) || (WayAt(cs, i).Connect? && c.link.connect >= 0))
  }

  /** REST, a download, APPE, and a STOR that runs set the restart offset. */
  ghost predicate SetsOffset(cs: seq<Command>, i: nat)
    requires i < |cs|
  {
    cs[i].Rest? || cs[i].Retr? || cs[i].Appe? || Uploads(cs, i)
  }

  ghost function LastOffset(cs: seq<Command>, i: nat): (j: int)
    requires i <= |cs|
    ensures -1 <= j < i && (j >= 0 ==> SetsOffset(cs, j)) && forall k | j < k < i :: !SetsOffset(cs, k)
  {
    if i == 0 then -1 else if SetsOffset(cs, i - 1) then i - 1 else LastOffset(cs, i - 1)
  }

  /** The restart offset at a place: that of REST, the mark of an APPE that did not run, or 0. */
  ghost function OffsetAt(cs: seq<Command>, i: nat): nat
    requires i <= |cs|
  {
    var j := LastOffset(cs, i);
    if j < 0 then 0
    else if cs[j].Rest? then cs[j].offset
    else if cs[j].Appe? && !Uploads(cs, j) then 0xffff_ffff
    else 0
  }

  /** The command at i creates the descriptor fd. */
  ghost predicate Creates(cs: seq<Command>, i: nat, fd: int)
    requires i < |cs|
  {
    match cs[i]
    case Pasv(socket, _, _, _) => fd == socket >= 0
    case Port(wellFormed, socket) => wellFormed && fd == socket >= 0
    case List(admitted, atRoot, dir, link) => admitted && (atRoot || dir >= 0) && AcceptsAt(cs, i, link, fd)
    case Retr(admitted, file, extent, position, memory, link) =>
      && admitted && file >= 0 && memory && position == OffsetAt(cs, i) && position <= extent
      && AcceptsAt(cs, i, link, fd)
    case Stor(admitted, file, memory, link) => admitted && file >= 0 && memory && AcceptsAt(cs, i, link, fd)
    case Appe(admitted, file, memory, link) => admitted && file >= 0 && memory && AcceptsAt(cs, i, link, fd)
    case _ => false
  }

  /** The connection that a line stands for. */
  ghost predicate IsWay(l: Line, way: Way) {
    match way
    case NoWay => l.connection == NoConnection
    case Connect(socket) => l.connection == Active && l.socket == socket
    case Accept(socket) => l.connection == Passive && l.socket == socket
  }

  lemma OpensByWay(l: Line, cs: seq<Command>, i: nat, link: LinkOutcome)
    requires i <= |cs| && IsWay(l, WayAt(cs, i))
    ensures Opens(l, link) <==> AcceptsAt(cs, i, link, link.accept) || (WayAt(cs, i).Connect? && link.connect >= 0)
    ensures forall fd :: Accepted(l, link)[fd] == if AcceptsAt(cs, i, link, fd) then 1 else 0
  {
  }

  lemma WayAfter(cs: seq<Command>, i: nat, l: Line)
    requires i < |cs| && IsWay(l, WayAt(cs, i))
    ensures IsWay(After(l, cs[i]), WayAt(cs, i + 1))
  {
  }

  lemma OffsetAfter(cs: seq<Command>, i: nat, l: Line)
    requires i < |cs| && IsWay(l, WayAt(cs, i)) && l.restorePoint == OffsetAt(cs, i)
    ensures After(l, cs[i]).restorePoint == OffsetAt(cs, i + 1)
  {
    var c := cs[i];
    if c.Stor? || c.Appe? {
      OpensByWay(l, cs, i, c.link);
    }
  }

  /** What the next command finds is what the places of the commands before it say. */
  lemma {:induction false} LineByPlaces(cs: seq<Command>, i: nat)
    requires i <= |cs|
    ensures IsWay(LineAfter(cs[..i]), WayAt(cs, i)) && LineAfter(cs[..i]).restorePoint == OffsetAt(cs, i)
  {
    if i > 0 {
      LineByPlaces(cs, i - 1);
      assert cs[..i][..i - 1] == cs[..i - 1];
      WayAfter(cs, i - 1, LineAfter(cs[..i - 1]));
      OffsetAfter(cs, i - 1, LineAfter(cs[..i - 1]));
    }
  }

  lemma SocketsByPlaces(cs: seq<Command>, i: nat, fd: int)
    requires i < |cs|
    ensures Sockets(LineAfter(cs[..i]), cs[i])[fd] == if Creates(cs, i, fd) then 1 else 0
  {
    var l, c := LineAfter(cs[..i]), cs[i];
    LineByPlaces(cs, i);
    if c.List? || c.Retr? || c.Stor? || c.Appe? {
      OpensByWay(l, cs, i, c.link);
    }
  }

  /** The places before n with a property. */
  ghost function Places(p: nat -> bool, n: nat): set<nat> {
    set i: nat | i < n && p(i)
  }

  lemma PlacesGrow(p: nat -> bool, n: nat)
    ensures |Places(p, n + 1)| == |Places(p, n)| + if p(n) then 1 else 0
  {
    var more: set<nat> := if p(n) then {n} else {};
    assert Places(p, n + 1) == Places(p, n) + more;
  }

  ghost function Creating(cs: seq<Command>, fd: int): nat -> bool {
    (i: nat) => i < |cs| && Creates(cs, i, fd)
  }

  lemma SocketsGrow(cs: seq<Command>, p: nat -> bool, n: nat, fd: int)
    requires n < |cs| && p == Creating(cs, fd)
    ensures AllSockets(cs[..n + 1])[fd] == AllSockets(cs[..n])[fd] + if p(n) then 1 else 0
  {
    AllSocketsGrow(cs, n, fd);
    SocketsByPlaces(cs, n, fd);
  }

  lemma AllSocketsGrow(cs: seq<Command>, n: nat, fd: int)
    requires n < |cs|
    ensures AllSockets(cs[..n + 1])[fd] == AllSockets(cs[..n])[fd] + Sockets(LineAfter(cs[..n]), cs[n])[fd]
  {
    assert cs[..n + 1][..n] == cs[..n];
  }

  /** A session creates a descriptor as often as there are commands that do. */
  lemma {:induction false} AllSocketsByPlaces(cs: seq<Command>, n: nat, fd: int)
    requires n <= |cs|
    ensures AllSockets(cs[..n])[fd] == |Places(Creating(cs, fd), n)|
  {
    var p := Creating(cs, fd);
    if n > 0 {
      AllSocketsByPlaces(cs, n - 1, fd);
      SocketsGrow(cs, p, n - 1, fd);
      PlacesGrow(p, n - 1);
    } else {
      assert Places(p, n) == {};
    }
  }

  // ---- the code ----

  class Client {
    const kernel: Kernel
    var dataSock: int
    var pasvSock: int
    var connection: ConnectionType
    var restorePoint: nat
    var holdsTransfer: bool
    var begun: nat
    var ended: nat

    /** The client's descriptors are exactly the open ones. */
    ghost predicate Owns()
      reads this, kernel
    {
      && kernel.Balanced()
      && kernel.open == (if dataSock >= 0 then {dataSock} else {}) + (if pasvSock >= 0 then {pasvSock} else {})
      && (dataSock >= 0 && pasvSock >= 0 ==> dataSock != pasvSock)
      && begun == ended + (if holdsTransfer then 1 else 0)
    }

    /** Between commands. */
    ghost predicate Ready()
      reads this, kernel
    {
      Owns() && pasvSock < 0 && (dataSock >= 0 <==> connection != NoConnection) && !holdsTransfer
    }

    /** No data connection at all. */
    ghost predicate Closed()
      reads this, kernel
    {
      Owns() && dataSock < 0 && pasvSock < 0 && connection == NoConnection
    }

    /** The client between commands, as a value. */
    function State(): (l: Line)
      reads this
    {
      Line(connection, if dataSock >= 0 then dataSock else -1, restorePoint)
    }

    constructor ()
      ensures Ready() && Closed() && fresh(kernel)
      ensures kernel.created == multiset{} && begun == 0 && State() == LineAfter([])
    {
      kernel := new Kernel();
      dataSock, pasvSock, connection := -1, -1, NoConnection;
      restorePoint, holdsTransfer, begun, ended := 0, false, 0, 0;
    }

    /** client_begin_transfer, whose answer depends on the other threads. */
    method BeginTransfer(admitted: bool) returns (ok: bool)
      requires Owns() && !holdsTransfer
      modifies this`holdsTransfer, this`begun
      ensures Owns() && ok == holdsTransfer == admitted
      ensures begun == old(begun) + if admitted then 1 else 0
    {
      if admitted {
        holdsTransfer, begun := true, begun + 1;
      }
      return admitted;
    }

    /** client_end_transfer, called by the holder only. */
    method EndTransfer()
      requires Owns() && holdsTransfer
      modifies this`holdsTransfer, this`ended
      ensures Owns() && !holdsTransfer && ended == old(ended) + 1
    {
      holdsTransfer, ended := false, ended + 1;
    }

    /** client_close_data_connection */
    method CloseData()
      requires Owns()
      modifies this`dataSock, this`pasvSock, this`connection, kernel
      ensures Closed() && kernel.created == old(kernel.created)
    {
      if dataSock >= 0 {
        kernel.Close(dataSock);
        dataSock := -1;
      }
      if pasvSock >= 0 {
        kernel.Close(pasvSock);
        pasvSock := -1;
      }
      connection := NoConnection;
    }

    /** client_open_data_connection: on an unusable connection nothing happens. */
    method OpenData(link: LinkOutcome) returns (ret: int)
      requires Owns() && pasvSock < 0
      modifies this`pasvSock, kernel
      ensures Owns()
      ensures old(connection == NoConnection || dataSock < 0) ==> ret < 0 && kernel.open == old(kernel.open)
      ensures connection == Passive && dataSock >= 0 ==>
        (ret >= 0 <==> link.accept >= 0 && link.accept != dataSock) && (ret >= 0 <==> pasvSock >= 0)
      ensures connection == Active && dataSock >= 0 ==> ret == link.connect && pasvSock == old(pasvSock)
      ensures dataSock >= 0 || connection == NoConnection ==> kernel.created == old(kernel.created) + Accepted(State(), link)
      ensures dataSock >= 0 || connection == NoConnection ==> (ret >= 0 <==> Opens(State(), link))
    {
      if connection == NoConnection || dataSock < 0 {
        return -1;
      }
      if connection == Active {
        return link.connect;
      }
      pasvSock := kernel.Create(link.accept);
      ret := if pasvSock < 0 then pasvSock else 0;
    }

    /** cmd_PASV_func */
    method DoPasv(socket: int, bind: int, listen: int, name: int)
      requires Ready()
      modifies this`dataSock, this`pasvSock, this`connection, kernel
      ensures Ready()
      ensures connection == if socket >= 0 && bind >= 0 && listen >= 0 && name >= 0 then Passive else NoConnection
      ensures connection == Passive ==> dataSock == socket
      ensures State() == After(old(State()), Pasv(socket, bind, listen, name))
      ensures kernel.created == old(kernel.created) + Sockets(old(State()), Pasv(socket, bind, listen, name))
    {
      CloseData();
      dataSock := kernel.Create(socket);
      if dataSock < 0 {
        return;
      }
      if bind < 0 {
        kernel.Close(dataSock);
        dataSock := -1;
        return;
      }
      if listen < 0 {
        kernel.Close(dataSock);
        dataSock := -1;
        return;
      }
      if name < 0 {
        kernel.Close(dataSock);
        dataSock := -1;
        return;
      }
      connection := Passive;
    }

    /** The socket of an active connection. */
    method OpenActive(socket: int)
      requires Closed() && !holdsTransfer
      modifies this`dataSock, this`connection, kernel
      ensures Ready() && State() == After(old(State()), Port(true, socket))
      ensures kernel.created == old(kernel.created) + Sockets(old(State()), Port(true, socket))
    {
      dataSock := kernel.Create(socket);
      if dataSock >= 0 {
        connection := Active;
      }
    }

    /** cmd_PORT_func: a malformed argument leaves the connection as it was. */
    method DoPort(wellFormed: bool, socket: int)
      requires Ready()
      modifies this`dataSock, this`pasvSock, this`connection, kernel
      ensures Ready()
      ensures !wellFormed ==> dataSock == old(dataSock) && connection == old(connection) && kernel.open == old(kernel.open)
      ensures wellFormed ==> connection == (if socket >= 0 then Active else NoConnection) && (socket >= 0 ==> dataSock == socket)
      ensures State() == After(old(State()), Port(wellFormed, socket))
      ensures kernel.created == old(kernel.created) + Sockets(old(State()), Port(wellFormed, socket))
    {
      if !wellFormed {
        return;
      }
      CloseData();
      OpenActive(socket);
    }

    /** The two calls that every transfer ends with. */
    method GiveUp()
      requires Owns() && holdsTransfer
      modifies this`dataSock, this`pasvSock, this`connection, this`holdsTransfer, this`ended, kernel
      ensures Ready() && Closed() && State() == Unconnected(old(State())) && kernel.created == old(kernel.created)
    {
      CloseData();
      EndTransfer();
    }

    /** In the middle of a transfer command, before its data connection. */
    ghost predicate Admitted()
      reads this, kernel
    {
      Owns() && pasvSock < 0 && (dataSock >= 0 <==> connection != NoConnection) && holdsTransfer
    }

    /** The data connection of a transfer is opened and, either way, given up with the transfer. */
    ghost predicate GivenUp(before: Line, created: multiset<int>, reached: bool, link: LinkOutcome)
      reads this, kernel
    {
      && Ready() && Closed() && State() == Unconnected(before).(restorePoint := restorePoint)
      && kernel.created == created + if reached then Accepted(before, link) else multiset{}
    }

    /** send_LIST, once admitted */
    method ListAdmitted(atRoot: bool, dir: int, link: LinkOutcome)
      requires Admitted()
      modifies this`dataSock, this`pasvSock, this`connection, this`holdsTransfer, this`ended, kernel
      ensures GivenUp(old(State()), old(kernel.created), atRoot || dir >= 0, link)
    {
      if !atRoot && dir < 0 {
        GiveUp();
        return;
      }
      var ret := OpenData(link);
      if ret < 0 {
        GiveUp();
        return;
      }
      GiveUp();
    }

    /** send_LIST */
    method SendList(admitted: bool, atRoot: bool, dir: int, link: LinkOutcome)
      requires Ready()
      modifies this, kernel
      ensures Ready() && Closed() && State() == After(old(State()), List(admitted, atRoot, dir, link))
      ensures kernel.created == old(kernel.created) + Sockets(old(State()), List(admitted, atRoot, dir, link))
      ensures begun == old(begun) + if admitted then 1 else 0
    {
      var ok := BeginTransfer(admitted);
      if !ok {
        CloseData();
        return;
      }
      ListAdmitted(atRoot, dir, link);
    }

    /** send_file, once admitted */
    method SendAdmitted(start: nat, fd: int, extent: int, position: int, memory: bool, link: LinkOutcome)
      requires Admitted()
      modifies this`dataSock, this`pasvSock, this`connection, this`holdsTransfer, this`ended, kernel
      ensures GivenUp(old(State()), old(kernel.created), fd >= 0 && start <= extent && position == start && memory, link)
    {
      if fd >= 0 {
        var at := if extent >= 0 && start <= extent then position else -1;
        if extent < 0 || start > extent || at != start {
          GiveUp();
          return;
        }
        if !memory {
          GiveUp();
          return;
        }
        var ret := OpenData(link);
        if ret < 0 {
          GiveUp();
          return;
        }
      }
      GiveUp();
    }

    /** send_file: the restart offset is consumed on every path. */
    method SendFile(admitted: bool, fd: int, extent: int, position: int, memory: bool, link: LinkOutcome)
      requires Ready()
      modifies this, kernel
      ensures Ready() && Closed() && State() == After(old(State()), Retr(admitted, fd, extent, position, memory, link))
      ensures kernel.created == old(kernel.created) + Sockets(old(State()), Retr(admitted, fd, extent, position, memory, link))
      ensures begun == old(begun) + if admitted then 1 else 0
    {
      RetrIs(State(), Retr(admitted, fd, extent, position, memory, link));
      var start := restorePoint;
      restorePoint := 0;
      var ok := BeginTransfer(admitted);
      if !ok {
        CloseData();
        return;
      }
      SendAdmitted(start, fd, extent, position, memory, link);
    }

    /** receive_file, once admitted */
    method ReceiveAdmitted(fd: int, memory: bool, link: LinkOutcome)
      requires Admitted()
      modifies this`dataSock, this`pasvSock, this`connection, this`holdsTransfer, this`ended, this`restorePoint, kernel
      ensures GivenUp(old(State()), old(kernel.created), fd >= 0 && memory, link)
      ensures restorePoint == if fd >= 0 && memory && Opens(old(State()), link) then 0 else old(restorePoint)
    {
      if fd >= 0 {
        if !memory {
          GiveUp();
          return;
        }
        var ret := OpenData(link);
        if ret < 0 {
          GiveUp();
          return;
        }
        restorePoint := 0;
      }
      GiveUp();
    }

    /** receive_file: the restart offset is consumed exactly when the stream has run. */
    method ReceiveFile(admitted: bool, fd: int, memory: bool, link: LinkOutcome)
      requires Ready()
      modifies this, kernel
      ensures Ready() && Closed() && State() == After(old(State()), Stor(admitted, fd, memory, link))
      ensures kernel.created == old(kernel.created) + Sockets(old(State()), Stor(admitted, fd, memory, link))
      ensures begun == old(begun) + if admitted then 1 else 0
    {
      StorIs(State(), Stor(admitted, fd, memory, link));
      var ok := BeginTransfer(admitted);
      if !ok {
        CloseData();
        return;
      }
      ReceiveAdmitted(fd, memory, link);
    }

    /** A built-in command that opens, replaces or configures. */
    method DispatchOther(c: Command)
      requires Ready() && !(c.List? || c.Retr? || c.Stor? || c.Appe?)
      modifies this`dataSock, this`pasvSock, this`connection, this`restorePoint, kernel
      ensures Ready() && State() == After(old(State()), c)
      ensures kernel.created == old(kernel.created) + Sockets(old(State()), c)
    {
      match c
      case Pasv(socket, bind, listen, name) => DoPasv(socket, bind, listen, name);
      case Port(wellFormed, socket) => DoPort(wellFormed, socket);
      case Rest(offset) => restorePoint := offset;
      case Other =>
    }

    /** cmd_APPE_func */
    method DoAppe(admitted: bool, fd: int, memory: bool, link: LinkOutcome)
      requires Ready()
      modifies this, kernel
      ensures Ready() && Closed() && State() == After(old(State()), Appe(admitted, fd, memory, link))
      ensures kernel.created == old(kernel.created) + Sockets(old(State()), Appe(admitted, fd, memory, link))
      ensures begun == old(begun) + if admitted then 1 else 0
    {
      restorePoint := APPEND_MARK;
      ReceiveFile(admitted, fd, memory, link);
    }

    /** One built-in command. */
    method Dispatch(c: Command)
      requires Ready()
      modifies this, kernel
      ensures Ready() && State() == After(old(State()), c)
      ensures kernel.created == old(kernel.created) + Sockets(old(State()), c)
      ensures c.List? || c.Retr? || c.Stor? || c.Appe? ==>
        Closed() && begun == old(begun) + if c.admitted then 1 else 0
      ensures !(c.List? || c.Retr? || c.Stor? || c.Appe?) ==> begun == old(begun)
    {
      match c
      case List(admitted, atRoot, dir, link) => SendList(admitted, atRoot, dir, link);
      case Retr(admitted, fd, extent, position, memory, link) => SendFile(admitted, fd, extent, position, memory, link);
      case Stor(admitted, fd, memory, link) => ReceiveFile(admitted, fd, memory, link);
      case Appe(admitted, fd, memory, link) => DoAppe(admitted, fd, memory, link);
      case _ => DispatchOther(c);
    }
  }

  function Transfers(commands: seq<Command>): nat {
    if commands == [] then 0
    else
      var c := commands[|commands| - 1];
      Transfers(commands[..|commands| - 1]) +
      (if (c.List? || c.Retr? || c.Stor? || c.Appe?) && c.admitted then 1 else 0)
  }

  ghost function Admitting(cs: seq<Command>): nat -> bool {
    (i: nat) => i < |cs| && (cs[i].List? || cs[i].Retr? || cs[i].Stor? || cs[i].Appe?) && cs[i].admitted
  }

  lemma {:induction false} TransfersByPlaces(cs: seq<Command>, n: nat)
    requires n <= |cs|
    ensures Transfers(cs[..n]) == |Places(Admitting(cs), n)|
  {
    var p := Admitting(cs);
    if n > 0 {
      TransfersByPlaces(cs, n - 1);
      assert cs[..n][..n - 1] == cs[..n - 1];
      PlacesGrow(p, n - 1);
    } else {
      assert Places(p, n) == {};
    }
  }

  /** client_thread: any commands, then the close at the end.  The data sockets created are
      those that the commands ask for, each has been closed exactly once, and every admitted
      transfer has been ended once. */
  method RunSession(commands: seq<Command>) returns (created: multiset<int>, closed: multiset<int>, ended: nat)
    ensures created == closed && forall fd :: created[fd] == |Places(Creating(commands, fd), |commands|)|
    ensures ended == |Places(Admitting(commands), |commands|)|
  {
    var client := new Client();
    var i := 0;
    while i < |commands|
      invariant 0 <= i <= |commands|
      invariant client.Ready() && fresh(client) && fresh(client.kernel)
      invariant client.begun == Transfers(commands[..i])
      invariant client.State() == LineAfter(commands[..i]) && client.kernel.created == AllSockets(commands[..i])
    {
      assert commands[..i + 1][..i] == commands[..i];
      client.Dispatch(commands[i]);
      i := i + 1;
    }
    assert commands[..i] == commands;
    client.CloseData();
    created, closed, ended := client.kernel.created, client.kernel.closed, client.ended;
    TransfersByPlaces(commands, |commands|);
    forall fd
      ensures created[fd] == |Places(Creating(commands, fd), |commands|)|
    {
      AllSocketsByPlaces(commands, |commands|, fd);
    }
  }
}

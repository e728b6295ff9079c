/**
 * Bookkeeping of the attack-simulator view (gui/simulador_view.py), with the
 * widgets stripped away: the packet queue fed by the live capture, the list
 * `captured_packets` and the table rows shown for it, the packet classifier,
 * and the control state (live captor, attack thread, stop flag, buttons).
 *
 * Every operation of the view is a pure transition on `ViewState`; the class
 * in simulador_view.dfy performs the same steps on fields and is proved
 * against these functions. Threads and `after` scheduling are not modelled:
 * every callback is one sequential call.
 */
module ViewSpec {
  import Simulador
  import opened PyBuiltins

  datatype IpHeader = IpHeader(src: string, dst: string)
  datatype ArpHeader = ArpHeader(op: int, psrc: string, pdst: string)

  /**
   * A packet as the view sees it: the IP and ARP layers when present, the
   * answers of `haslayer(TCP)` and `haslayer(UDP)`, and the capture time and
   * length, which the view only copies into its columns.
   */
  datatype Packet = Packet(ip: Option<IpHeader>, hasTcp: bool, hasUdp: bool, arp: Option<ArpHeader>,
                           time: int, length: nat)

  /** One row of the packet table: id, time, source, destination, protocol, length, attack tag. */
  datatype Row = Row(id: nat, time: int, src: string, dst: string, proto: string, length: nat, attack: bool)

  /** The Protocol, Source and Destination columns. */
  datatype Columns = Columns(proto: string, src: string, dst: string)

  const FakeAttackerIp: string := "192.168.200.100"
  const FakeTargetIp: string := "192.168.1.100"

  // ---------------------------------------------------------------------
  // The classifier of `_insertar_paquete_en_gui`
  // ---------------------------------------------------------------------

  /** The IP test of the attack check: attacker source and target destination. */
  predicate FromAttackerToTarget(p: Packet)
  {
    p.ip.Some? && p.ip.value.src == FakeAttackerIp && p.ip.value.dst == FakeTargetIp
  }

  /** The ARP test of the attack check: a reply (op 2) about the target's address. */
  predicate SpoofedReplyToTarget(p: Packet)
  {
    p.arp.Some? && p.arp.value.op == 2 && p.arp.value.pdst == FakeTargetIp
  }

  /** `is_attack`, computed as the source does: the ARP test is reached only when the IP test fails. */
  function IsAttack(p: Packet): (r: bool)
    ensures r <==> (FromAttackerToTarget(p) && (p.hasTcp || p.hasUdp))
                   || (!FromAttackerToTarget(p) && SpoofedReplyToTarget(p))
  {
    if FromAttackerToTarget(p) then p.hasTcp || p.hasUdp
    else SpoofedReplyToTarget(p)
  }

  /** The Protocol, Source and Destination columns of a packet. */
  function ColumnsOf(p: Packet): (c: Columns)
    ensures c.proto in {"TCP", "UDP", "IP", "ARP", "N/A"}
    ensures p.ip.Some? ==> c.src == p.ip.value.src && c.dst == p.ip.value.dst
    ensures c.proto == "TCP" <==> p.ip.Some? && p.hasTcp
    ensures c.proto == "UDP" <==> p.ip.Some? && !p.hasTcp && p.hasUdp
    ensures c.proto == "IP" <==> p.ip.Some? && !p.hasTcp && !p.hasUdp
    ensures c.proto == "ARP" <==> p.ip.None? && p.arp.Some?
    ensures c.proto == "ARP" ==> c.src == p.arp.value.psrc && c.dst == p.arp.value.pdst
    ensures c.proto == "N/A" <==> c == Columns("N/A", "N/A", "N/A")
  {
    if p.ip.Some? then
      Columns(if p.hasTcp then "TCP" else if p.hasUdp then "UDP" else "IP", p.ip.value.src, p.ip.value.dst)
    else if p.arp.Some? then
      Columns("ARP", p.arp.value.psrc, p.arp.value.pdst)
    else
      Columns("N/A", "N/A", "N/A")
  }

  /** The row the view inserts for a packet given id `id`. */
  function RowOf(id: nat, p: Packet): (r: Row)
    ensures r.id == id && r.time == p.time && r.length == p.length
    ensures r.attack == IsAttack(p)
    ensures r.attack ==> r.proto != "N/A"
    ensures r.proto == "N/A" <==> p.ip.None? && p.arp.None?
  {
    var c := ColumnsOf(p);
    Row(id, p.time, c.src, c.dst, c.proto, p.length, IsAttack(p))
  }

  /** A packet tagged as an attack shows the target as destination, unless it carries both IP and ARP layers. */
  lemma AttackRowShowsTarget(p: Packet)
    requires IsAttack(p) && !(p.ip.Some? && p.arp.Some?)
    ensures ColumnsOf(p).dst == FakeTargetIp && ColumnsOf(p).proto in {"TCP", "UDP", "ARP"}
  {
    if p.ip.Some? {
      assert FromAttackerToTarget(p);
    } else {
      assert SpoofedReplyToTarget(p);
    }
  }

  /** How a packet sent by the generator would look once captured, with the source Scapy fills in. */
  function Observed(sp: Simulador.SentPacket, src: string, time: int, length: nat): Packet
  {
    match sp
    case TcpSegment(dst, _, _) => Packet(Some(IpHeader(src, dst)), true, false, None, time, length)
    case UdpDatagram(dst, _, _) => Packet(Some(IpHeader(src, dst)), false, true, None, time, length)
    case ArpPacket(op, pdst, _, psrc) => Packet(None, false, false, Some(ArpHeader(op, psrc, pdst)), time, length)
  }

  /**
   * The generator of core/simulador.py addresses 127.0.0.1, while the view
   * flags only packets addressed to 192.168.1.100: none of the generated
   * packets is ever tagged as an attack, whatever source address it carries.
   */
  lemma {:induction false} GeneratedPacketsNeverTagged(kind: string, k: nat, src: string, time: int, length: nat)
    requires Simulador.AttackPackets(kind).Some? && k < |Simulador.AttackPackets(kind).value|
    ensures !IsAttack(Observed(Simulador.AttackPackets(kind).value[k], src, time, length))
  {
    var sp := Simulador.AttackPackets(kind).value[k];
    assert Simulador.Localhost != FakeTargetIp by {
      assert Simulador.Localhost[1] != FakeTargetIp[1];
    }
    if kind == Simulador.ScanKind {
      assert sp == Simulador.TcpSegment(Simulador.Localhost, 80 + k, "S");
    } else if kind == Simulador.FloodKind {
      assert sp == Simulador.FloodDatagram;
    } else {
      assert sp == Simulador.SpoofReply;
    }
  }

  // ---------------------------------------------------------------------
  // The view's state
  // ---------------------------------------------------------------------

  /** The attack thread: none started yet, or started for a kind and alive or finished. */
  datatype AttackThread = NoThread | Started(kind: string, alive: bool)

  /** The interface combobox: selectable ("readonly") or locked ("disabled"). */
  datatype ComboState = ReadOnly | Locked

  datatype ViewState = ViewState(
    captor: Option<string>,          // the live captor, by the interface it listens on
    captured: seq<Packet>,           // `captured_packets`
    rows: seq<Row>,                  // the rows of the packet table
    queue: seq<Packet>,              // `packet_queue`, oldest first
    updateJob: bool,                 // a tick of the queue is scheduled
    attackThread: AttackThread,
    stopAttackEvent: bool,
    attackButtons: seq<bool>,        // enabled state of each attack button
    stopAttackEnabled: bool,
    stopAttackLabel: string,
    startCaptureEnabled: bool,
    stopCaptureEnabled: bool,
    ifaceCombo: ComboState,
    log: seq<string>,                // the simulation log pane
    details: Option<Packet>)         // the packet shown in the details pane

  /** The four attack buttons: "Escaneo SYN", "Flood UDP", "Spoofing ARP", "DDoS Simulado". */
  const AttackButtonCount: nat := 4
  const StopAttackText: string := "Detener Ataque"
  const StoppingText: string := "Deteniendo..."

  const CaptureStoppedLine: string := "Captura real detenida.\n"
  const StopSignalLine: string := "--- Señal de detención enviada al ataque ---\n"

  function CaptureStartedLine(iface: string): string
  {
    "Captura real iniciada en " + iface + "\n"
  }

  function AttackStartedLine(kind: string): string
  {
    "--- Iniciando simulación: " + kind + " ---\n"
  }

  /**
   * The invariant every operation keeps: row k of the table has id k and
   * shows the k-th captured packet; the capture buttons and the combobox
   * mirror whether a captor runs; an enabled stop-attack button means every
   * attack button is disabled and the stop flag is clear.
   */
  ghost predicate Valid(s: ViewState)
  {
    && RowsShowPackets(s.rows, s.captured)
    && CaptureControlsMirrorCaptor(s)
    && AttackControlsConsistent(s)
  }

  /** Row k carries id k + 1 and the columns of the k-th packet. */
  ghost predicate RowsShowPackets(rows: seq<Row>, captured: seq<Packet>)
  {
    && |rows| == |captured|
    && forall k :: 0 <= k < |rows| ==> rows[k] == RowOf(k + 1, captured[k])
  }

  ghost predicate CaptureControlsMirrorCaptor(s: ViewState)
  {
    && s.startCaptureEnabled == s.captor.None?
    && s.stopCaptureEnabled == s.captor.Some?
    && s.ifaceCombo == (if s.captor.Some? then Locked else ReadOnly)
  }

  ghost predicate AttackControlsConsistent(s: ViewState)
  {
    && |s.attackButtons| == AttackButtonCount
    && (s.stopAttackEnabled ==> !s.stopAttackEvent && forall i :: 0 <= i < |s.attackButtons| ==> !s.attackButtons[i])
  }

  /** Frame predicates: the table and queue, the capture controls, the attack controls are unchanged. */
  predicate SamePackets(r: ViewState, s: ViewState)
  {
    r.captured == s.captured && r.rows == s.rows && r.queue == s.queue && r.details == s.details
  }

  predicate SameCaptureControls(r: ViewState, s: ViewState)
  {
    && r.captor == s.captor && r.startCaptureEnabled == s.startCaptureEnabled
    && r.stopCaptureEnabled == s.stopCaptureEnabled && r.ifaceCombo == s.ifaceCombo
  }

  predicate SameAttackControls(r: ViewState, s: ViewState)
  {
    && r.attackThread == s.attackThread && r.stopAttackEvent == s.stopAttackEvent
    && r.attackButtons == s.attackButtons && r.stopAttackEnabled == s.stopAttackEnabled
    && r.stopAttackLabel == s.stopAttackLabel
  }

  /** The state `__init__` and the widget builders leave behind. */
  function Initial(): (s: ViewState)
    ensures Valid(s)
    ensures s.captor.None? && s.captured == [] && s.queue == [] && !s.stopAttackEnabled
  {
    ViewState(None, [], [], [], false, NoThread, false, seq(AttackButtonCount, _ => true), false, StopAttackText,
              true, false, ReadOnly, [], None)
  }

  /** `_agregar_paquete`: the capture callback puts the packet at the back of the queue. */
  function Enqueue(s: ViewState, p: Packet): (r: ViewState)
    ensures Valid(s) ==> Valid(r)
    ensures r.queue == s.queue + [p]
    ensures r.captured == s.captured && r.rows == s.rows && r.details == s.details && r.updateJob == s.updateJob
    ensures SameCaptureControls(r, s) && SameAttackControls(r, s) && r.log == s.log
  {
    s.(queue := s.queue + [p])
  }

  /** `_insertar_paquete_en_gui`: append the packet and its row, with id the new list length. */
  function Insert(s: ViewState, p: Packet): (r: ViewState)
    ensures Valid(s) ==> Valid(r)
    ensures r.captured == s.captured + [p]
    ensures |r.rows| == |s.rows| + 1 && r.rows[..|s.rows|] == s.rows
    ensures r.rows[|r.rows| - 1].id == |r.captured|
    ensures r.rows[|r.rows| - 1].attack == IsAttack(p)
    ensures r.queue == s.queue && r.details == s.details && r.updateJob == s.updateJob
    ensures SameCaptureControls(r, s) && SameAttackControls(r, s) && r.log == s.log
  {
    var captured := s.captured + [p];
    var r := s.(captured := captured, rows := s.rows + [RowOf(|captured|, p)]);
    assert r.rows[..|s.rows|] == s.rows;
    r
  }

  /** One run of `_process_packet_queue`: move at most one packet, the oldest, then reschedule. */
  function Tick(s: ViewState): (r: ViewState)
    ensures Valid(s) ==> Valid(r)
    ensures r.updateJob
    ensures s.queue == [] ==> r.queue == [] && r.captured == s.captured
    ensures s.queue != [] ==> r.captured == s.captured + [s.queue[0]] && r.queue == s.queue[1..]
    ensures r.details == s.details && SameCaptureControls(r, s) && SameAttackControls(r, s) && r.log == s.log
  {
    if s.queue == [] then s.(updateJob := true)
    else Insert(s.(queue := s.queue[1..]), s.queue[0]).(updateJob := true)
  }

  /** The interface names `iniciar_captura_real` refuses: empty, or holding "Cargando" or "Error". */
  function InvalidIface(iface: string): (r: bool)
    ensures r <==> iface == "" || exists i :: 0 <= i <= |iface| && ("Cargando" <= iface[i..] || "Error" <= iface[i..])
  {
    ContainsOccurs(iface, "Cargando");
    ContainsOccurs(iface, "Error");
    iface == "" || Contains(iface, "Cargando") || Contains(iface, "Error")
  }

  /** `iniciar_captura_real`: refuse a placeholder interface, else clear the view, drain the queue and start. */
  function StartCapture(s: ViewState, iface: string): (r: ViewState)
    ensures Valid(s) ==> Valid(r)
    ensures InvalidIface(iface) ==> r == s
    ensures !InvalidIface(iface) ==>
      && r.captor == Some(iface)
      && r.captured == [] && r.rows == [] && r.queue == [] && r.details.None?
      && !r.startCaptureEnabled && r.stopCaptureEnabled && r.ifaceCombo == Locked
      && r.updateJob
      && r.log == [CaptureStartedLine(iface)]
      && SameAttackControls(r, s)
  {
    if InvalidIface(iface) then s
    else
      var started := Listening(s, iface);
      if s.updateJob then started else Tick(started)
  }

  /** The state `iniciar_captura_real` reaches before the first tick: cleared, drained, listening on `iface`. */
  function Listening(s: ViewState, iface: string): (r: ViewState)
    ensures Valid(s) ==> Valid(r)
  {
    s.(captured := [], rows := [], details := None, log := [CaptureStartedLine(iface)],
       queue := [], captor := Some(iface),
       startCaptureEnabled := false, stopCaptureEnabled := true, ifaceCombo := Locked)
  }

  /** `detener_captura_real`: drop the captor, cancel the tick, restore the idle buttons. */
  function StopCapture(s: ViewState): (r: ViewState)
    ensures Valid(s) ==> Valid(r)
    ensures r.captor.None? && !r.updateJob
    ensures r.startCaptureEnabled && !r.stopCaptureEnabled && r.ifaceCombo == ReadOnly
    ensures r.log == if s.captor.Some? then s.log + [CaptureStoppedLine] else s.log
    ensures SamePackets(r, s) && SameAttackControls(r, s)
  {
    var logged := if s.captor.Some? then s.(captor := None, log := s.log + [CaptureStoppedLine]) else s;
    logged.(updateJob := false, startCaptureEnabled := true, stopCaptureEnabled := false, ifaceCombo := ReadOnly)
  }

  /** `_iniciar_ataque_en_hilo`: lock the attack buttons, arm the stop button, clear the flag, start the thread. */
  function StartAttack(s: ViewState, kind: string): (r: ViewState)
    ensures Valid(s) ==> Valid(r)
    ensures forall i :: 0 <= i < |r.attackButtons| ==> !r.attackButtons[i]
    ensures r.stopAttackEnabled && !r.stopAttackEvent
    ensures r.attackThread == Started(kind, true)
    ensures r.log == s.log + [AttackStartedLine(kind)]
    ensures s.captor.None? ==> r.captured == [] && r.rows == []
    ensures s.captor.Some? ==> r.captured == s.captured && r.rows == s.rows
    ensures SameCaptureControls(r, s) && r.queue == s.queue && r.updateJob == s.updateJob
    ensures r.stopAttackLabel == s.stopAttackLabel && r.details == s.details
  {
    var armed := s.(attackButtons := seq(AttackButtonCount, _ => false), stopAttackEnabled := true,
                    stopAttackEvent := false, log := s.log + [AttackStartedLine(kind)]);
    var cleared := if s.captor.None? then armed.(rows := [], captured := []) else armed;
    cleared.(attackThread := Started(kind, true))
  }

  predicate AttackAlive(s: ViewState)
  {
    s.attackThread.Started? && s.attackThread.alive
  }

  /** `_detener_ataque_actual`: set the stop flag only while the attack thread is alive. */
  function StopAttack(s: ViewState): (r: ViewState)
    ensures Valid(s) ==> Valid(r)
    ensures !AttackAlive(s) ==> r == s
    ensures AttackAlive(s) ==>
      && r.stopAttackEvent && !r.stopAttackEnabled && r.stopAttackLabel == StoppingText
      && r.log == s.log + [StopSignalLine]
    ensures SamePackets(r, s) && SameCaptureControls(r, s) && r.updateJob == s.updateJob
    ensures r.attackThread == s.attackThread && r.attackButtons == s.attackButtons
  {
    if AttackAlive(s) then
      s.(stopAttackEvent := true, stopAttackEnabled := false, stopAttackLabel := StoppingText,
         log := s.log + [StopSignalLine])
    else s
  }

  /** The attack thread returns; the view learns of it only through `is_alive()`. */
  function AttackThreadExit(s: ViewState): (r: ViewState)
    ensures Valid(s) ==> Valid(r)
    ensures !AttackAlive(r)
    ensures r.attackThread.Started? <==> s.attackThread.Started?
    ensures SamePackets(r, s) && SameCaptureControls(r, s) && r.updateJob == s.updateJob && r.log == s.log
    ensures r.attackButtons == s.attackButtons && r.stopAttackEnabled == s.stopAttackEnabled
    ensures r.stopAttackEvent == s.stopAttackEvent && r.stopAttackLabel == s.stopAttackLabel
  {
    match s.attackThread
    case NoThread => s
    case Started(kind, _) => s.(attackThread := Started(kind, false))
  }

  /** `_reset_attack_buttons`: every attack button enabled, the stop button disabled with its label restored. */
  function ResetAttackButtons(s: ViewState): (r: ViewState)
    ensures Valid(s) ==> Valid(r)
    ensures |r.attackButtons| == AttackButtonCount && forall i :: 0 <= i < |r.attackButtons| ==> r.attackButtons[i]
    ensures !r.stopAttackEnabled && r.stopAttackLabel == StopAttackText
    ensures r.attackThread == s.attackThread && r.stopAttackEvent == s.stopAttackEvent
    ensures SamePackets(r, s) && SameCaptureControls(r, s) && r.updateJob == s.updateJob && r.log == s.log
  {
    s.(attackButtons := seq(AttackButtonCount, _ => true), stopAttackEnabled := false,
       stopAttackLabel := StopAttackText)
  }

  /** `_mostrar_detalles_paquete`: show the packet of the first selected row, looked up at `id - 1`. */
  function ShowDetails(s: ViewState, selection: seq<int>): (r: ViewState)
    ensures Valid(s) ==> Valid(r)
    ensures r.captured == s.captured && r.rows == s.rows && r.queue == s.queue && r.updateJob == s.updateJob
    ensures SameCaptureControls(r, s) && SameAttackControls(r, s) && r.log == s.log
    ensures selection == [] ==> r == s
    ensures selection != [] && 1 <= selection[0] <= |s.captured| ==> r.details == Some(s.captured[selection[0] - 1])
    ensures selection != [] && (selection[0] <= -|s.captured| || |s.captured| < selection[0]) ==> r == s
  {
    if selection == [] then s
    else match PyIndex(s.captured, selection[0] - 1)
      case None => s
      case Some(p) => s.(details := Some(p))
  }

  /** Any navigation while the "Simulador" view is shown (gui/main.py) stops a running live capture. */
  function LeaveView(s: ViewState): (r: ViewState)
    ensures Valid(s) ==> Valid(r)
    ensures r.captor.None?
    ensures s.captor.None? ==> r == s
    ensures s.captor.Some? ==> r == StopCapture(s)
  {
    if s.captor.Some? then StopCapture(s) else s
  }

  // ---------------------------------------------------------------------
  // Properties over several operations
  // ---------------------------------------------------------------------

  /** The row a selection names is shown: id k finds the k-th inserted packet. */
  lemma SelectedRowShowsItsPacket(s: ViewState, k: nat)
    requires Valid(s) && k < |s.rows|
    ensures s.rows[k].id == k + 1
    ensures ShowDetails(s, [s.rows[k].id]).details == Some(s.captured[k])
  {
    assert s.rows[k] == RowOf(k + 1, s.captured[k]);
  }

  /** Inserting packets one by one gives them ids 1..n in insertion order. */
  function InsertAll(s: ViewState, ps: seq<Packet>): (r: ViewState)
    ensures Valid(s) ==> Valid(r)
    ensures |r.captured| == |s.captured| + |ps|
    decreases |ps|
  {
    if ps == [] then s else InsertAll(Insert(s, ps[0]), ps[1..])
  }

  lemma {:induction false} InsertAllAppends(s: ViewState, ps: seq<Packet>)
    ensures InsertAll(s, ps).captured == s.captured + ps
    decreases |ps|
  {
    if ps != [] {
      InsertAllAppends(Insert(s, ps[0]), ps[1..]);
      assert s.captured + [ps[0]] + ps[1..] == s.captured + ps;
    }
  }

  /** Starting from an empty list, the k-th inserted packet gets id k and is found at `k - 1`. */
  lemma InsertedIdsCount(s: ViewState, ps: seq<Packet>, k: nat)
    requires Valid(s) && s.captured == [] && k < |ps|
    ensures InsertAll(s, ps).rows[k].id == k + 1
    ensures ShowDetails(InsertAll(s, ps), [k + 1]).details == Some(ps[k])
  {
    InsertAllAppends(s, ps);
    SelectedRowShowsItsPacket(InsertAll(s, ps), k);
  }

  /** `detener_captura_real` is idempotent. */
  lemma StopCaptureIdempotent(s: ViewState)
    ensures StopCapture(StopCapture(s)) == StopCapture(s)
  {
  }

  /** With no captor, stopping only cancels the tick: the buttons are already idle. */
  lemma StopWithoutCaptor(s: ViewState)
    requires Valid(s) && s.captor.None?
    ensures StopCapture(s) == s.(updateJob := false)
  {
  }

  /**
   * An attack thread that returns without scheduling `_reset_attack_buttons`
   * leaves the view locked: every attack button stays disabled, the stop
   * button stays enabled, and pressing it no longer does anything.
   */
  lemma AttackEndsWithoutReset(s: ViewState, kind: string)
    ensures var t := AttackThreadExit(StartAttack(s, kind));
      && (forall i :: 0 <= i < |t.attackButtons| ==> !t.attackButtons[i])
      && t.stopAttackEnabled
      && StopAttack(t) == t
  {
  }

  /** The calls that reach the queue: the capture callback and one queue tick. */
  datatype Event = Captured(p: Packet) | Ticked

  /** The list followed by the queue: every packet the view holds, in arrival order. */
  function Pipeline(s: ViewState): seq<Packet>
  {
    s.captured + s.queue
  }

  function Step(s: ViewState, e: Event): (r: ViewState)
    ensures Valid(s) ==> Valid(r)
    ensures Pipeline(r) == Pipeline(s) + (if e.Captured? then [e.p] else [])
  {
    match e
    case Captured(p) => Enqueue(s, p)
    case Ticked => Tick(s)
  }

  function Run(s: ViewState, events: seq<Event>): (r: ViewState)
    ensures Valid(s) ==> Valid(r)
    decreases |events|
  {
    if events == [] then s else Run(Step(s, events[0]), events[1..])
  }

  /** The packets the capture callback hands over, in order. */
  function Produced(events: seq<Event>): seq<Packet>
  {
    if events == [] then []
    else (if events[0].Captured? then [events[0].p] else []) + Produced(events[1..])
  }

  /**
   * FIFO hand-off: under any interleaving of captures and ticks, the list
   * followed by the queue is the old list, the old queue and every captured
   * packet in capture order; nothing is lost, duplicated or reordered.
   */
  lemma {:induction false} RunKeepsCaptureOrder(s: ViewState, events: seq<Event>)
    ensures Pipeline(Run(s, events)) == Pipeline(s) + Produced(events)
    decreases |events|
  {
    if events == [] {
      assert Run(s, events) == s;
      assert Produced(events) == [];
    } else {
      var e := events[0];
      var s' := Step(s, e);
      RunKeepsCaptureOrder(s', events[1..]);
      var head := if e.Captured? then [e.p] else [];
      calc {
        Pipeline(Run(s, events));
        Pipeline(Run(s', events[1..]));
        Pipeline(s') + Produced(events[1..]);
        Pipeline(s) + head + Produced(events[1..]);
        Pipeline(s) + (head + Produced(events[1..]));
        Pipeline(s) + Produced(events);
      }
    }
  }

  function Ticks(s: ViewState, n: nat): (r: ViewState)
    ensures Valid(s) ==> Valid(r)
    decreases n
  {
    if n == 0 then s else Ticks(Tick(s), n - 1)
  }

  /** n ticks shorten the queue by its n oldest packets and keep the pipeline. */
  lemma {:induction false} TicksConsumeQueue(s: ViewState, n: nat)
    requires n <= |s.queue|
    ensures Ticks(s, n).queue == s.queue[n..]
    ensures Pipeline(Ticks(s, n)) == Pipeline(s)
    decreases n
  {
    if n > 0 {
      var t := Tick(s);
      assert Pipeline(t) == Pipeline(Step(s, Ticked));
      TicksConsumeQueue(t, n - 1);
      assert t.queue[n - 1..] == s.queue[n..];
    }
  }

  /** n ticks move the n oldest queued packets, in queue order, to the end of the list. */
  lemma TicksDrainInOrder(s: ViewState, n: nat)
    requires n <= |s.queue|
    ensures Ticks(s, n).captured == s.captured + s.queue[..n]
    ensures Ticks(s, n).queue == s.queue[n..]
  {
    TicksConsumeQueue(s, n);
    var c := Ticks(s, n).captured;
    assert c + s.queue[n..] == (s.captured + s.queue[..n]) + s.queue[n..] by {
      assert s.queue == s.queue[..n] + s.queue[n..];
    }
    assert c == (c + s.queue[n..])[..|c|];
  }

}

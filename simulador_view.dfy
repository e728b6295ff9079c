/**
 * The attack-simulator view (gui/simulador_view.py) as an object whose
 * methods update its fields in place, one callback per call. Each method is
 * proved to leave exactly the state the matching transition of ViewSpec
 * describes, so the invariant `Valid` and the lemmas proved there (FIFO
 * hand-off, ids 1..n, idempotent stop) hold of the object.
 */
module SimuladorView {
  import opened PyBuiltins
  import opened ViewSpec

  class SimuladorViewFrame {
    var captor: Option<string>
    var capturedPackets: seq<Packet>
    var rows: seq<Row>
    var packetQueue: seq<Packet>
    var updateJob: bool
    var attackThread: AttackThread
    var stopAttackEvent: bool
    var attackButtons: seq<bool>
    var stopAttackEnabled: bool
    var stopAttackLabel: string
    var startCaptureEnabled: bool
    var stopCaptureEnabled: bool
    var ifaceCombo: ComboState
    var log: seq<string>
    var details: Option<Packet>

    /** The abstract value of the object. */
    function State(): ViewState
      reads this
    {
      ViewState(captor, capturedPackets, rows, packetQueue, updateJob, attackThread, stopAttackEvent,
                attackButtons, stopAttackEnabled, stopAttackLabel, startCaptureEnabled, stopCaptureEnabled,
                ifaceCombo, log, details)
    }

    ghost predicate Valid()
      reads this
    {
      ViewSpec.Valid(State())
    }

    /** `__init__` together with the widget builders that set the initial button states. */
    constructor ()
      ensures Valid() && State() == ViewSpec.Initial()
    {
      captor := None;
      capturedPackets := [];
      rows := [];
      packetQueue := [];
      updateJob := false;
      attackThread := NoThread;
      stopAttackEvent := false;
      attackButtons := [true, true, true, true];
      stopAttackEnabled, stopAttackLabel := false, StopAttackText;
      startCaptureEnabled := true;
      stopCaptureEnabled := false;
      ifaceCombo := ReadOnly;
      log := [];
      details := None;
      new;
      assert attackButtons == seq(AttackButtonCount, _ => true);
    }

    /** `_agregar_paquete`: the live-capture callback. */
    method AddPacket(p: Packet)
      requires Valid()
      modifies this
      ensures Valid() && State() == ViewSpec.Enqueue(old(State()), p)
    {
      packetQueue := packetQueue + [p];
    }

    /** `_insertar_paquete_en_gui`: append, number, classify and show one packet. */
    method InsertPacket(p: Packet)
      requires Valid()
      modifies this
      ensures Valid() && State() == ViewSpec.Insert(old(State()), p)
    {
      capturedPackets := capturedPackets + [p];
      var id := |capturedPackets|;
      rows := rows + [RowOf(id, p)];
    }

    /** `_process_packet_queue`: take at most one packet off the queue, then reschedule. */
    method ProcessPacketQueue()
      requires Valid()
      modifies this
      ensures Valid() && State() == ViewSpec.Tick(old(State()))
    {
      if packetQueue != [] {
        var p := packetQueue[0];
        packetQueue := packetQueue[1..];
        InsertPacket(p);
      }
      updateJob := true;
    }

    /** `iniciar_captura_real`, with the selected interface as argument. */
    method StartCapture(iface: string)
      requires Valid()
      modifies this
      ensures Valid() && State() == ViewSpec.StartCapture(old(State()), iface)
    {
      if InvalidIface(iface) {
        return;
      }
      Listen(iface);
      if !updateJob {
        ProcessPacketQueue();
      }
    }

    /** The body of `iniciar_captura_real` once the interface is accepted, up to the first tick. */
    method Listen(iface: string)
      modifies this
      ensures State() == Listening(old(State()), iface)
    {
      ClearView();
      DrainQueue();
      captor := Some(iface);
      LogToGui(CaptureStartedLine(iface));
      SetCaptureControls(true);
    }

    /** The "clear the view" block: the table, the packet list, the details pane and the log pane. */
    method ClearView()
      modifies this
      ensures State() == old(State()).(rows := [], captured := [], details := None, log := [])
    {
      ClearPacketList();
      details, log := None, [];
    }

    /** Empty the table and `captured_packets` together. */
    method ClearPacketList()
      modifies this
      ensures State() == old(State()).(rows := [], captured := [])
    {
      rows, capturedPackets := [], [];
    }

    /** `_log_to_gui`: append one message to the log pane. */
    method LogToGui(message: string)
      modifies this
      ensures State() == old(State()).(log := old(log) + [message])
    {
      log := log + [message];
    }

    /** The three widget updates that show whether a live capture runs. */
    method SetCaptureControls(running: bool)
      modifies this
      ensures State() == old(State()).(startCaptureEnabled := !running, stopCaptureEnabled := running,
                                       ifaceCombo := if running then Locked else ReadOnly)
    {
      startCaptureEnabled, stopCaptureEnabled := !running, running;
      ifaceCombo := if running then Locked else ReadOnly;
    }

    /** The `while not packet_queue.empty(): get_nowait()` loop: empty the queue, nothing else. */
    method DrainQueue()
      modifies this
      ensures State() == old(State()).(queue := [])
    {
      while packetQueue != []
        invariant State() == old(State()).(queue := packetQueue)
        decreases |packetQueue|
      {
        packetQueue := packetQueue[1..];
      }
    }

    /** The `for btn in self.attack_buttons` loops: give every attack button the state `enabled`. */
    method SetAttackButtons(enabled: bool)
      requires |attackButtons| == AttackButtonCount
      modifies this
      ensures State() == old(State()).(attackButtons := seq(AttackButtonCount, _ => enabled))
    {
      var i := 0;
      while i < |attackButtons|
        invariant 0 <= i <= |attackButtons| == AttackButtonCount
        invariant forall j :: 0 <= j < i ==> attackButtons[j] == enabled
        invariant State() == old(State()).(attackButtons := attackButtons)
      {
        attackButtons := attackButtons[i := enabled];
        i := i + 1;
      }
      assert attackButtons == seq(AttackButtonCount, _ => enabled);
    }

    /** `detener_captura_real`. */
    method StopCapture()
      requires Valid()
      modifies this
      ensures Valid() && State() == ViewSpec.StopCapture(old(State()))
    {
      if captor.Some? {
        captor := None;
        LogToGui(CaptureStoppedLine);
      }
      updateJob := false;
      SetCaptureControls(false);
    }

    /** `_iniciar_ataque_en_hilo`: the thread itself is represented by `attackThread`. */
    method StartAttack(kind: string)
      requires Valid()
      modifies this
      ensures Valid() && State() == ViewSpec.StartAttack(old(State()), kind)
    {
      SetAttackButtons(false);
      stopAttackEnabled, stopAttackEvent := true, false;
      LogToGui(AttackStartedLine(kind));
      if captor.None? {
        ClearPacketList();
      }
      attackThread := Started(kind, true);
    }

    /** `_detener_ataque_actual`. */
    method StopAttack()
      requires Valid()
      modifies this
      ensures Valid() && State() == ViewSpec.StopAttack(old(State()))
    {
      if attackThread.Started? && attackThread.alive {
        LogToGui(StopSignalLine);
        stopAttackEvent, stopAttackEnabled, stopAttackLabel := true, false, StoppingText;
      }
    }

    /** The attack thread's target returns. */
    method AttackThreadExit()
      requires Valid()
      modifies this
      ensures Valid() && State() == ViewSpec.AttackThreadExit(old(State()))
    {
      if attackThread.Started? {
        attackThread := Started(attackThread.kind, false);
      }
    }

    /** `_reset_attack_buttons`. */
    method ResetAttackButtons()
      requires Valid()
      modifies this
      ensures Valid() && State() == ViewSpec.ResetAttackButtons(old(State()))
    {
      SetAttackButtons(true);
      stopAttackEnabled, stopAttackLabel := false, StopAttackText;
    }

    /** `_mostrar_detalles_paquete`, with the ids of the selected rows as argument. */
    method ShowPacketDetails(selection: seq<int>)
      requires Valid()
      modifies this
      ensures Valid() && State() == ViewSpec.ShowDetails(old(State()), selection)
    {
      if selection == [] {
        return;
      }
      var packetId := selection[0];
      var found := PyIndex(capturedPackets, packetId - 1);
      if found.Some? {
        details := found;
      }
    }

    /** The teardown `mostrar_frame` (gui/main.py) runs on any navigation while the "Simulador" view is shown. */
    method LeaveView()
      requires Valid()
      modifies this
      ensures Valid() && State() == ViewSpec.LeaveView(old(State()))
    {
      if captor.Some? {
        StopCapture();
      }
    }
  }
}

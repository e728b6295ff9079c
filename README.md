# cybertrainer core in Dafny

cybertrainer is a Tkinter desktop trainer for network security. It captures live
traffic with Scapy, generates small attack simulations (a SYN scan, a UDP flood,
an ARP spoof) and shows every packet in one table, where attack packets are
highlighted. This project models the three parts of it that have stateable
behaviour and proves properties of the model:

- **Active-interface selection** (`core/network_utils.py`), in `network_utils.dfy`.
  Tier 1 scans the OS interface list. It skips records without an ip or a name,
  and records whose lower-cased description holds an exclusion keyword. It keeps
  records whose ip starts with one of nine literal prefixes, and answers the
  first record kept. Tier 2 falls back to the default route. The scan is a method
  with a loop. It is proved equal to a reference function, and the choice is
  proved to be the first qualifying record.
- **Attack packet generator** (`core/simulador.py`), in `simulador.dfy`.
  `send` appends an abstract packet record to an output sequence. The per-kind
  loops are a method proved against a reference table of packet sequences.
  `simular_ddos` and `simular_arp_spoofing` become the sequences of lines they print.
- **Simulator view bookkeeping** (`gui/simulador_view.py`, plus the teardown
  rule of `gui/main.py`), in two files:
  - `view_state.dfy` (module `ViewSpec`) holds the packet classifier and the
    view state as a value. Every callback is a pure transition that keeps the
    invariant `Valid`. The lemmas cover FIFO hand-off, ids 1..n, idempotent
    stop and the locked state after an attack.
  - `simulador_view.dfy` (module `SimuladorView`) is the view as a class whose
    fields are updated in place. Each method is proved to leave exactly the
    state the matching `ViewSpec` transition computes, so `Valid` and the
    lemmas hold of the object too.

The Python built-ins these files rely on are shared in `py_builtins.dfy` (module
`PyBuiltins`): `None`, truthiness, `str.lower()`, the substring test `in` and
list indexing with negative indices.

Foreign calls enter as parameters:
- The interface list is a `seq<Iface>`.
- The routing-table query is an `Option<RouteEntry>`; None means the query raised.
- `get_if_addr` is a function `string -> Option<string>`; None means it raised.
- A captured packet is an abstract `Packet` with its IP and ARP layers and its TCP/UDP tags.

## Model

| member | source | states |
|---|---|---|
| PyBuiltins.Lower | core/network_utils.py:69 | Same length as the input. No ASCII capital and no U+212A KELVIN SIGN is left. Every other character is unchanged. |
| PyBuiltins.ContainsOccurs | core/network_utils.py:77 | `sub in s` holds if and only if `sub` occurs in `s` at some index. |
| PyBuiltins.PyIndex | gui/simulador_view.py:500 | Python list indexing: non-negative indices in range, negative ones from the end, None for `IndexError`. |
| NetworkUtils.Excluded | core/network_utils.py:62-77 | A description is excluded if and only if one of the six keywords occurs in it at some index. |
| NetworkUtils.HasPrivatePrefix | core/network_utils.py:82 | Every admitted address starts with "10.", "192.168." or "172.". Every address starting with "10." or "192.168." is admitted. |
| NetworkUtils.Qualifies | core/network_utils.py:69-82 | A qualifying record has a non-empty name and ip. Its ip starts with "10.", "192.168." or "172.". Its lower-cased description holds none of the keywords. |
| NetworkUtils.KelvinSignFolded | core/network_utils.py:69-78 | A description spelling "Loopback" with U+212A for its k still disqualifies the record, as `str.lower()` folds that sign to k. |
| NetworkUtils.DefaultRouteInfo | core/network_utils.py:15-41 | A name is returned exactly when the route query and the address lookup both succeed. Otherwise the answer is (None, None). With a name, the ip is whatever the lookup gave, even an empty string. |
| NetworkUtils.FirstQualifying | core/network_utils.py:68-89 | Reference choice. The answer is the index of a qualifying record with no qualifying record before it. None means no record qualifies. |
| NetworkUtils.CollectCandidates | core/network_utils.py:64-83 | The Tier-1 loop builds exactly the filtered list `Candidates(ifaces)`. The pairs are the qualifying records, in input order. |
| NetworkUtils.GetActiveNetworkInfo | core/network_utils.py:43-98 | The answer equals the reference `ActiveNetworkInfo`. A Tier-1 answer has a non-empty name and an ip with one of the nine prefixes. With no qualifying record the answer is the default-route answer. |
| NetworkUtils.NoCandidates | core/network_utils.py:75-89 | The filtered list is empty if and only if no record qualifies. |
| NetworkUtils.CandidatesHeadIsFirst | core/network_utils.py:86-89 | The list is non-empty iff some record qualifies. Its head is the first qualifying record. |
| NetworkUtils.CandidatesSound | core/network_utils.py:82-83 | Every candidate pair is the (name, ip) of some qualifying input record. |
| NetworkUtils.FirstQualifyingIsLeast | core/network_utils.py:86-89 | A qualifying index preceded only by non-qualifying records is the one chosen. |
| NetworkUtils.LaterInterfacesIgnored | core/network_utils.py:86-89 | Once a record qualifies, appending more records never changes the answer. |
| NetworkUtils.RouteNotConsulted | core/network_utils.py:86-89 | If some record qualifies, the answer does not depend on the route or on the address lookup. |
| NetworkUtils.FallbackWhenNoneQualifies | core/network_utils.py:98 | If no record qualifies, the answer is `_get_default_route_info()`'s. |
| NetworkUtils.MissingIpOrNameNeverChosen | core/network_utils.py:75-76 | A record with a missing or empty ip or name is never chosen. |
| NetworkUtils.KeywordExcludes | core/network_utils.py:69-78 | A record is disqualified when its lower-cased description holds an exclusion keyword. |
| NetworkUtils.NameNotScreened | core/network_utils.py:69-78 | Only the description is screened. Replacing a non-empty name by any other non-empty name never changes whether a record qualifies. |
| NetworkUtils.BarePrefixAdmitsPublicRanges | core/network_utils.py:82 | The bare "172.2" prefix admits 172.200.10.1 and 172.2.0.1. 172.15.0.1 matches no prefix. |
| NetworkUtils.VpnListedFirstIsSkipped | core/network_utils.py:68-89 | A VPN adapter listed before a Wi-Fi adapter is skipped, and the Wi-Fi pair is answered. |
| NetworkUtils.NotExcludedWithoutKeyLetters | core/network_utils.py:62-78 | A description lacking the letters k, v, p and d holds none of the six keywords. |
| Simulador.AttackPackets | core/simulador.py:11-27 | Defined exactly for the three kinds "Escaneo SYN", "Flood UDP" and "Spoofing ARP". Each sends 1 to 50 packets, every one aimed at 127.0.0.1. |
| Simulador.SimulateAttack | core/simulador.py:11-27 | Completes iff the kind is one of the three literals. Otherwise it fails with "Ataque no soportado." and sends nothing. On completion the packets sent are the reference sequence for the kind. The scan is 5 SYN segments to ports 80+i. The flood is 50 copies of one datagram. The spoof is one ARP reply. |
| Simulador.ScanIsSynOnly | core/simulador.py:12-15 | Every scan packet is a TCP segment to 127.0.0.1 with flags exactly "S" and a port in 80..84. |
| Simulador.ScanPortsIncrease | core/simulador.py:13 | The scan has 5 packets with strictly increasing ports, starting at 80. |
| Simulador.FloodShape | core/simulador.py:17-20 | The flood is 50 UDP datagrams to 127.0.0.1:123 carrying "FLOOD". |
| Simulador.SpoofShape | core/simulador.py:22-24 | The spoof is one ARP packet with op 2, pdst 127.0.0.1, hwdst ff:ff:ff:ff:ff:ff and psrc 192.168.1.1. |
| Simulador.DdosKindRejected | core/simulador.py:26-27 | "DDoS Simulado", which the view offers, is rejected. |
| Simulador.SimulateDdos | core/simulador.py:29-34 | Seven lines: the start line, rounds #1..#5 in order, then the end line. |
| Simulador.ArpSpoofingLog | core/simulador.py:36-39 | Exactly three lines, in order, with prefixes "[*] ", "[!] " and "[*] ". |
| Simulador.DdosRoundsDistinct | core/simulador.py:32 | Each round line is an event line, and distinct rounds print distinct lines. |
| ViewSpec.IsAttack | gui/simulador_view.py:444-455 | Attack iff (attacker-to-target IP and TCP or UDP) or (not that IP test and an ARP reply with pdst the target). |
| ViewSpec.ColumnsOf | gui/simulador_view.py:440-471 | IP with TCP gives "TCP", with UDP "UDP", else "IP", with the IP addresses. Otherwise ARP gives "ARP" with psrc/pdst. Anything else gives "N/A" in all three columns. Each case holds in both directions. |
| ViewSpec.RowOf | gui/simulador_view.py:473-477 | The row keeps the packet's id, time and length, and its tag is `IsAttack`. A tagged row never shows "N/A" as protocol. The protocol is "N/A" exactly when the packet has neither an IP nor an ARP layer. |
| ViewSpec.AttackRowShowsTarget | gui/simulador_view.py:444-471 | A tagged packet without both IP and ARP layers shows the target address as destination, under TCP, UDP or ARP. |
| ViewSpec.GeneratedPacketsNeverTagged | gui/simulador_view.py:444-455 | No packet of the generator in core/simulador.py is ever tagged, whatever its source address, because it is addressed to 127.0.0.1. |
| ViewSpec.Initial | gui/simulador_view.py:46-53 | The initial state satisfies the invariant, with no captor, an empty list and queue, and the stop button disabled. |
| ViewSpec.Enqueue | gui/simulador_view.py:394-402 | The packet is appended to the back of the queue, nothing else changes, and the invariant is kept. |
| ViewSpec.Insert | gui/simulador_view.py:437-477 | Appends exactly one packet and one row. The row's id is the new list length and its tag is `IsAttack`. Earlier rows are kept, nothing else changes, and the invariant is kept. |
| ViewSpec.Tick | gui/simulador_view.py:404-425 | On a non-empty queue, the oldest packet moves to the end of the list. On an empty queue, neither the queue nor the list changes. A tick is always rescheduled. |
| ViewSpec.InvalidIface | gui/simulador_view.py:312-315 | An interface name is refused if and only if it is empty or "Cargando" or "Error" occurs in it at some index. |
| ViewSpec.StartCapture | gui/simulador_view.py:303-342 | A placeholder interface name changes nothing. Otherwise the list, rows, queue and details are empty and the captor is set. Start is disabled, stop enabled and the combobox locked. The log is the one start line, and the attack controls are untouched. |
| ViewSpec.Listening | gui/simulador_view.py:317-338 | The cleared, drained and listening state keeps the invariant. |
| ViewSpec.StopCapture | gui/simulador_view.py:344-364 | No captor and no tick afterwards, with the idle buttons. A stop line is logged only when a captor ran. The packets and attack controls are untouched. |
| ViewSpec.StartAttack | gui/simulador_view.py:548-585 | Every attack button is disabled, stop is enabled, the flag is cleared and the start line logged. The list is cleared only without a captor. The thread is started, and capture controls and queue are untouched. |
| ViewSpec.StopAttack | gui/simulador_view.py:525-535 | Without a live thread, nothing changes. With one, the flag is set, stop is disabled with "Deteniendo..." and the stop line is logged. |
| ViewSpec.AttackThreadExit | gui/simulador_view.py:579-585 | After the thread returns, no thread is alive. Whether one was ever started and every other field are unchanged. |
| ViewSpec.ResetAttackButtons | gui/simulador_view.py:537-546 | All four attack buttons are enabled, and stop is disabled with "Detener Ataque". Nothing else changes. |
| ViewSpec.ShowDetails | gui/simulador_view.py:486-510 | An empty selection or an out-of-range id changes nothing. Id k in 1..n shows packet k-1. Only the details pane changes. |
| ViewSpec.LeaveView | gui/main.py:187-190 | Any navigation while the Simulador view is shown leaves no captor. It is `StopCapture` when a captor ran and no change otherwise. |
| ViewSpec.SelectedRowShowsItsPacket | gui/simulador_view.py:437-500 | Row k carries id k+1, and selecting it shows the k-th packet. |
| ViewSpec.InsertAll | gui/simulador_view.py:427-438 | Inserting n packets one by one adds n packets and keeps the invariant. |
| ViewSpec.InsertAllAppends | gui/simulador_view.py:437 | Inserting a sequence appends exactly that sequence to the list. |
| ViewSpec.InsertedIdsCount | gui/simulador_view.py:437-500 | From an empty list, the k-th inserted packet gets id k and is found again at `k - 1`. |
| ViewSpec.StopCaptureIdempotent | gui/simulador_view.py:344-364 | Stopping twice equals stopping once. |
| ViewSpec.StopWithoutCaptor | gui/simulador_view.py:352-364 | With no captor, stopping only cancels the tick. |
| ViewSpec.AttackEndsWithoutReset | gui/simulador_view.py:579-582 | When the thread returns without the reset (as it does here, see Left out), the buttons stay locked and pressing stop does nothing. |
| ViewSpec.Step | gui/simulador_view.py:394-425 | A capture callback adds its packet at the back of list-then-queue. A tick leaves list-then-queue unchanged. The invariant is kept. |
| ViewSpec.RunKeepsCaptureOrder | gui/simulador_view.py:402-419 | Under any interleaving of captures and ticks, list-then-queue is the old one followed by the captured packets in capture order. |
| ViewSpec.TicksConsumeQueue | gui/simulador_view.py:414-421 | n ticks drop the n oldest queued packets and keep list-then-queue. |
| ViewSpec.TicksDrainInOrder | gui/simulador_view.py:414-421 | n ticks append the n oldest queued packets to the list, in queue order. |
| SimuladorView.SimuladorViewFrame.constructor | gui/simulador_view.py:32-55 | Builds the initial state, which satisfies the invariant. |
| SimuladorView.SimuladorViewFrame.AddPacket | gui/simulador_view.py:394-402 | The new state is `Enqueue` of the old one, and the invariant holds. |
| SimuladorView.SimuladorViewFrame.InsertPacket | gui/simulador_view.py:427-477 | The new state is `Insert` of the old one. |
| SimuladorView.SimuladorViewFrame.ProcessPacketQueue | gui/simulador_view.py:404-425 | The new state is `Tick` of the old one. |
| SimuladorView.SimuladorViewFrame.StartCapture | gui/simulador_view.py:303-342 | The new state is `ViewSpec.StartCapture` of the old one. |
| SimuladorView.SimuladorViewFrame.Listen | gui/simulador_view.py:317-338 | Clearing, draining and starting reach `Listening`. |
| SimuladorView.SimuladorViewFrame.ClearView | gui/simulador_view.py:318-325 | The table, list, details and log are empty, and nothing else changes. |
| SimuladorView.SimuladorViewFrame.ClearPacketList | gui/simulador_view.py:575-577 | The table and list are empty, and nothing else changes. |
| SimuladorView.SimuladorViewFrame.DrainQueue | gui/simulador_view.py:328-330 | The drain loop empties the queue and changes nothing else. |
| SimuladorView.SimuladorViewFrame.LogToGui | gui/simulador_view.py:512-523 | Appends exactly the message to the log. |
| SimuladorView.SimuladorViewFrame.SetCaptureControls | gui/simulador_view.py:336-338 | Start, stop and combobox show whether a capture runs, and nothing else changes. |
| SimuladorView.SimuladorViewFrame.SetAttackButtons | gui/simulador_view.py:556-557 | The loop gives all four attack buttons the same state, and nothing else changes. |
| SimuladorView.SimuladorViewFrame.StopCapture | gui/simulador_view.py:344-364 | The new state is `ViewSpec.StopCapture` of the old one. |
| SimuladorView.SimuladorViewFrame.StartAttack | gui/simulador_view.py:548-585 | The new state is `ViewSpec.StartAttack` of the old one. |
| SimuladorView.SimuladorViewFrame.StopAttack | gui/simulador_view.py:525-535 | The new state is `ViewSpec.StopAttack` of the old one. |
| SimuladorView.SimuladorViewFrame.AttackThreadExit | gui/simulador_view.py:579-585 | The new state is `ViewSpec.AttackThreadExit` of the old one. |
| SimuladorView.SimuladorViewFrame.ResetAttackButtons | gui/simulador_view.py:537-546 | The new state is `ViewSpec.ResetAttackButtons` of the old one. |
| SimuladorView.SimuladorViewFrame.ShowPacketDetails | gui/simulador_view.py:486-510 | The new state is `ViewSpec.ShowDetails` of the old one. |
| SimuladorView.SimuladorViewFrame.LeaveView | gui/main.py:187-190 | On any navigation while the Simulador view is shown, the new state is `ViewSpec.LeaveView` of the old one. |

## Left out

- **Threads and scheduling.**
  - Every callback is one sequential call. This covers the live-capture thread, the attack thread, `threading.Event`, `self.after` and `after_cancel`.
  - `update_job` is a flag: set when a tick is scheduled, cleared when it is cancelled.
  - The attack thread is represented only by whether it was started and is still alive. Its return is the separate operation `AttackThreadExit`.
- **The attack thread's body does not match `core/simulador.py`.** The two files disagree in three ways:
  - The view imports `FAKE_ATTACKER_IP` from `core.simulador` (gui/simulador_view.py:19), which does not define it. The model uses the literal the view redefines at gui/simulador_view.py:444.
  - The view calls `simular_ataque` with five arguments (gui/simulador_view.py:581). The one-argument function raises `TypeError` before `self.after(0, self._reset_attack_buttons)` is reached.
  - The view offers "DDoS Simulado" (gui/simulador_view.py:159), which `simular_ataque` rejects (`DdosKindRejected`).
  - The model keeps both files as written. `AttackEndsWithoutReset` states the view that results: buttons locked, and stop enabled but inert. The packets the simulation would inject directly (`direct_insert_callback`) go through `InsertPacket`.
- **Scapy, the OS and `PacketCaptor`.** `send`, `sniff`, `conf.route.route`, `get_if_addr` and `get_windows_if_list` are inputs or oracles. `PacketCaptor` is not part of this model: its class is not defined in the repository. The captor is recorded only by the interface it listens on.
- **Text formatting.** The model leaves out `packet.summary()`, `packet.show()`, `time.strftime` and the Info column. Time and length are copied into rows unformatted. The details pane holds the packet shown, not its text.
- **The messagebox, tab selection, scrolling and widget layout.** None of these changes the state modelled.
- **stderr and stdout prints** in `core/network_utils.py`, and `time.sleep` in `simular_ddos`.
- PyBuiltins.Lower: folds ASCII capitals and U+212A KELVIN SIGN (to k) and leaves every other character. Python's `str.lower()` folds more letters, but into non-ASCII letters, except U+0130, which becomes i followed by U+0307. The keywords are ASCII and none ends in i, so the keyword test comes out the same.
- NetworkUtils.Description: a record whose `description` key is present with a non-string value (on which `.lower()` would raise) is not modelled. A missing key is `""`, as `.get('description', '')` gives.
- ViewSpec.ShowDetails: row ids reach the handler as ints. The `int(selected_item)` `ValueError` path is not modelled, because every iid the view inserts is a decimal string.

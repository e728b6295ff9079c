/**
 * Attack packet generator (core/simulador.py).
 *
 * `simular_ataque(tipo)` maps an attack name to a fixed, finite sequence of
 * packets, each handed to Scapy's `send`. Here `send` appends an abstract
 * packet record to the output sequence `sent`; nothing reaches a network.
 * `simular_ddos` and `simular_arp_spoofing` only print fixed lines and are
 * modelled by the sequence of lines they print.
 */
module Simulador {

  import opened PyBuiltins

  /** The packets the generator builds, with the fields it sets; unset fields are left to Scapy. */
  datatype SentPacket =
    | TcpSegment(dst: string, dport: int, flags: string)     // IP(dst)/TCP(dport, flags)
    | UdpDatagram(dst: string, dport: int, load: string)     // IP(dst)/UDP(dport)/Raw(load)
    | ArpPacket(op: int, pdst: string, hwdst: string, psrc: string)

  /** Normal return, or the `ValueError` raised for an unknown kind. */
  datatype Outcome = Completed | Unsupported(message: string)

  const ScanKind: string := "Escaneo SYN"
  const FloodKind: string := "Flood UDP"
  const SpoofKind: string := "Spoofing ARP"

  const Localhost: string := "127.0.0.1"
  const BroadcastMac: string := "ff:ff:ff:ff:ff:ff"
  const GatewayIp: string := "192.168.1.1"
  const UnsupportedMessage: string := "Ataque no soportado."

  const FloodDatagram: SentPacket := UdpDatagram(Localhost, 123, "FLOOD")
  const SpoofReply: SentPacket := ArpPacket(2, Localhost, BroadcastMac, GatewayIp)

  /** The SYN scan: one SYN-only segment per port of range(80, 85). */
  function ScanProbes(): seq<SentPacket>
  {
    seq(5, i => TcpSegment(Localhost, 80 + i, "S"))
  }

  /** The UDP flood: fifty copies of one datagram. */
  function FloodBurst(): seq<SentPacket>
  {
    seq(50, _ => FloodDatagram)
  }

  /** The address a packet is aimed at: `IP.dst`, or `ARP.pdst` for an ARP packet. */
  function Target(p: SentPacket): string
  {
    if p.ArpPacket? then p.pdst else p.dst
  }

  /** Reference definition: what each kind sends, None for a kind the generator rejects. */
  function AttackPackets(kind: string): (r: Option<seq<SentPacket>>)
    ensures r.Some? <==> kind == ScanKind || kind == FloodKind || kind == SpoofKind
    ensures r.Some? ==> 1 <= |r.value| <= 50
    ensures r.Some? ==> forall p :: p in r.value ==> Target(p) == Localhost
  {
    if kind == ScanKind then Some(ScanProbes())
    else if kind == FloodKind then Some(FloodBurst())
    else if kind == SpoofKind then Some([SpoofReply])
    else None
  }

  /** `simular_ataque(tipo)`: every `send` appends one packet to `sent`. */
  method SimulateAttack(kind: string) returns (outcome: Outcome, sent: seq<SentPacket>)
    ensures outcome == Completed <==> kind in {ScanKind, FloodKind, SpoofKind}
    ensures outcome != Completed ==> outcome == Unsupported(UnsupportedMessage) && sent == []
    ensures outcome == Completed ==> AttackPackets(kind) == Some(sent)
    ensures kind == ScanKind ==>
      |sent| == 5 && forall i :: 0 <= i < 5 ==> sent[i] == TcpSegment(Localhost, 80 + i, "S")
    ensures kind == FloodKind ==> |sent| == 50 && forall p :: p in sent ==> p == FloodDatagram
    ensures kind == SpoofKind ==> sent == [SpoofReply]
  {
    sent := [];
    if kind == ScanKind {
      for port := 80 to 85
        invariant |sent| == port - 80
        invariant forall i :: 0 <= i < |sent| ==> sent[i] == TcpSegment(Localhost, 80 + i, "S")
      {
        sent := sent + [TcpSegment(Localhost, port, "S")];
      }
      assert sent == ScanProbes();
      outcome := Completed;
    } else if kind == FloodKind {
      for n := 0 to 50
        invariant |sent| == n
        invariant forall i :: 0 <= i < n ==> sent[i] == FloodDatagram
      {
        sent := sent + [FloodDatagram];
      }
      assert sent == FloodBurst();
      outcome := Completed;
    } else if kind == SpoofKind {
      sent := sent + [SpoofReply];
      assert sent == [SpoofReply];
      outcome := Completed;
    } else {
      outcome := Unsupported(UnsupportedMessage);
    }
  }

  /** Every packet of the SYN scan is a bare SYN to the loopback address: no ACK ever follows. */
  lemma ScanIsSynOnly()
    ensures AttackPackets(ScanKind).Some?
    ensures forall p :: p in AttackPackets(ScanKind).value ==>
      p.TcpSegment? && p.flags == "S" && p.dst == Localhost && 80 <= p.dport < 85
  {
  }

  /** The SYN scan's destination ports increase strictly, covering 80..84 without a gap. */
  lemma ScanPortsIncrease()
    ensures AttackPackets(ScanKind).Some?
    ensures forall i, j :: 0 <= i < j < |AttackPackets(ScanKind).value| ==>
      AttackPackets(ScanKind).value[i].dport < AttackPackets(ScanKind).value[j].dport
    ensures |AttackPackets(ScanKind).value| == 5 && AttackPackets(ScanKind).value[0].dport == 80
  {
  }

  /** The flood is fifty identical datagrams to port 123 carrying "FLOOD". */
  lemma FloodShape()
    ensures AttackPackets(FloodKind).Some? && |AttackPackets(FloodKind).value| == 50
    ensures forall p :: p in AttackPackets(FloodKind).value ==>
      p.UdpDatagram? && p.dst == Localhost && p.dport == 123 && p.load == "FLOOD"
  {
  }

  /** The spoofing run is a single unsolicited ARP reply (op 2) claiming the gateway address. */
  lemma SpoofShape()
    ensures AttackPackets(SpoofKind) == Some([ArpPacket(2, "127.0.0.1", "ff:ff:ff:ff:ff:ff", "192.168.1.1")])
  {
  }

  /** Only the three literal kinds are accepted; "DDoS Simulado", which the view offers, is not. */
  lemma DdosKindRejected()
    ensures AttackPackets("DDoS Simulado") == None
  {
  }

  // ---------------------------------------------------------------------
  // The two log-only simulations
  // ---------------------------------------------------------------------

  const DdosStartLine: string := "[*] Simulando ataque DDoS..."
  const DdosEndLine: string := "[*] Fin de simulación DDoS."

  /** The line printed on round `n` of `simular_ddos`, with `n` written in decimal. */
  function DdosRoundLine(n: nat): string
    requires 1 <= n <= 9
  {
    "[!] Ataque simulado #" + [('0' as int + n) as char] + " - Múltiples peticiones enviadas"
  }

  /** `simular_ddos`: a start line, rounds #1..#5 in order, an end line. */
  method SimulateDdos() returns (log: seq<string>)
    ensures |log| == 7 && log[0] == DdosStartLine && log[6] == DdosEndLine
    ensures forall k :: 1 <= k <= 5 ==> log[k] == DdosRoundLine(k)
  {
    log := [DdosStartLine];
    for i := 0 to 5
      invariant |log| == i + 1 && log[0] == DdosStartLine
      invariant forall k :: 1 <= k <= i ==> log[k] == DdosRoundLine(k)
    {
      log := log + [DdosRoundLine(i + 1)];
    }
    log := log + [DdosEndLine];
  }

  /** `simular_arp_spoofing`: its three fixed lines. */
  function ArpSpoofingLog(): (log: seq<string>)
    ensures |log| == 3
    ensures "[*] " <= log[0] && "[!] " <= log[1] && "[*] " <= log[2]
  {
    ["[*] Simulando ataque ARP Spoofing...",
     "[!] Paquetes ARP falsos enviados a la red",
     "[*] Fin de simulación ARP Spoofing."]
  }

  /** The DDoS round lines are event lines ("[!] ") and carry distinct round numbers. */
  lemma DdosRoundsDistinct(m: nat, n: nat)
    requires 1 <= m <= 9 && 1 <= n <= 9 && m != n
    ensures "[!] " <= DdosRoundLine(m) && DdosRoundLine(m) != DdosRoundLine(n)
  {
    var i := |"[!] Ataque simulado #"|;
    assert DdosRoundLine(m)[i] != DdosRoundLine(n)[i];
  }
}

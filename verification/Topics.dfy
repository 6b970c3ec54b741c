/**
 Sparkplug topics, printed for publishing and parsed on arrival (section 4 of Sparkplug 3.0.0). A topic
 is its bytes, written as characters; `utf8` says which byte strings are valid UTF-8.
 */
module Topics {
  import opened Options
  import opened Splitting

  const SPBV01: string := "spBv1.0"
  const STATE: string := "STATE"

  datatype Producer = Node | Device

  datatype Kind = Birth | Death | Cmd | Data | Other(name: string)

  datatype Certificate = Certificate(timestamp: nat, online: bool)

  /** What the decoders of payload bytes say of them. */
  datatype Payload = Payload(decodes: bool, certificate: Option<Certificate>)

  datatype Reason = InvalidSparkplugTopic | Utf8Error | DecodePayloadError | StatePayloadJsonDecodeError

  datatype Event =
    | NodeEvent(group: string, node: string, kind: Kind)
    | DeviceEvent(group: string, node: string, device: string, kind: Kind)
    | StateEvent(host: string, certificate: Certificate)
    | InvalidPublish(reason: Reason)

  predicate ValidName(name: string) {
    name != [] && '+' !in name && '/' !in name && '#' !in name
  }

  /** A name is checked character by character. */
  method ValidateName(name: string) returns (ok: bool)
    ensures ok <==> ValidName(name)
    ensures ok <==> name != [] && forall k :: 0 <= k < |name| ==> name[k] != '+' && name[k] != '/' && name[k] != '#'
  {
    if name == [] {
      return false;
    }
    for i := 0 to |name|
      invariant forall k :: 0 <= k < i ==> name[k] != '+' && name[k] != '/' && name[k] != '#'
    {
      if name[i] == '+' || name[i] == '/' || name[i] == '#' {
        return false;
      }
    }
    ok := true;
  }

  function KindName(kind: Kind): string {
    match kind
    case Birth => "BIRTH"
    case Death => "DEATH"
    case Data => "DATA"
    case Cmd => "CMD"
    case Other(name) => name
  }

  function MessagePart(producer: Producer, kind: Kind): string {
    (if producer.Node? then "N" else "D") + KindName(kind)
  }

  function NodeTopic(group: string, kind: Kind, node: string): string {
    SPBV01 + "/" + group + "/" + MessagePart(Node, kind) + "/" + node
  }

  function DeviceTopic(group: string, kind: Kind, node: string, device: string): string {
    SPBV01 + "/" + group + "/" + MessagePart(Device, kind) + "/" + node + "/" + device
  }

  function StateHostTopic(host: string): string {
    SPBV01 + "/" + STATE + "/" + host
  }

  datatype Part = Part(producer: Producer, kind: Kind) | BadPart(reason: Reason)

  function MessagePartParsed(utf8: string -> bool, part: string): Part {
    if |part| < 2 || (part[0] != 'N' && part[0] != 'D') then BadPart(InvalidSparkplugTopic)
    else
      var producer := if part[0] == 'N' then Node else Device;
      var rest := part[1..];
      if rest == "BIRTH" then Part(producer, Birth)
      else if rest == "DEATH" then Part(producer, Death)
      else if rest == "DATA" then Part(producer, Data)
      else if rest == "CMD" then Part(producer, Cmd)
      else if utf8(rest) then Part(producer, Other(rest))
      else BadPart(Utf8Error)
  }

  function StateParsed(utf8: string -> bool, payload: Payload, rest: seq<string>): Event {
    if rest == [] then InvalidPublish(InvalidSparkplugTopic)
    else if !utf8(rest[0]) then InvalidPublish(Utf8Error)
    else if payload.certificate.None? then InvalidPublish(StatePayloadJsonDecodeError)
    else StateEvent(rest[0], payload.certificate.value)
  }

  function Delivered(payload: Payload, decode: bool, event: Event): Event {
    if decode && !payload.decodes then InvalidPublish(DecodePayloadError) else event
  }

  function MessageParsed(
      utf8: string -> bool, payload: Payload, decode: bool, group: string, rest: seq<string>): Event {
    if !utf8(group) then InvalidPublish(Utf8Error)
    else if rest == [] then InvalidPublish(InvalidSparkplugTopic)
    else
      var part := MessagePartParsed(utf8, rest[0]);
      if part.BadPart? then InvalidPublish(part.reason)
      else if |rest| < 2 then InvalidPublish(InvalidSparkplugTopic)
      else if !utf8(rest[1]) then InvalidPublish(Utf8Error)
      else if part.producer.Node? then
        if |rest| > 2 then InvalidPublish(InvalidSparkplugTopic)
        else Delivered(payload, decode, NodeEvent(group, rest[1], part.kind))
      else
        if |rest| < 3 then InvalidPublish(InvalidSparkplugTopic)
        else if !utf8(rest[2]) then InvalidPublish(Utf8Error)
        else if |rest| > 3 then InvalidPublish(InvalidSparkplugTopic)
        else Delivered(payload, decode, DeviceEvent(group, rest[1], rest[2], part.kind))
  }

  /** The first piece is skipped, whatever it says. */
  function PiecesParsed(utf8: string -> bool, payload: Payload, decode: bool, pieces: seq<string>): Event
    requires pieces != []
  {
    if |pieces| < 2 then InvalidPublish(InvalidSparkplugTopic)
    else if pieces[1] == STATE then StateParsed(utf8, payload, pieces[2..])
    else MessageParsed(utf8, payload, decode, pieces[1], pieces[2..])
  }

  function Parsed(utf8: string -> bool, payload: Payload, decode: bool, topic: string): Event {
    PiecesParsed(utf8, payload, decode, Split(topic, '/'))
  }

  // Printing and parsing

  predicate Known(kind: Kind) {
    !kind.Other?
  }

  lemma PartParses(utf8: string -> bool, producer: Producer, kind: Kind)
    requires Known(kind)
    ensures '/' !in MessagePart(producer, kind)
    ensures MessagePartParsed(utf8, MessagePart(producer, kind)) == Part(producer, kind)
  {
    assert MessagePart(producer, kind)[1..] == KindName(kind);
  }

  /** A part read as a known kind is how that kind is printed. */
  lemma PartReprints(utf8: string -> bool, part: string)
    ensures var p := MessagePartParsed(utf8, part);
            p.Part? ==> MessagePart(p.producer, p.kind) == part
  {
    if MessagePartParsed(utf8, part).Part? {
      assert part == [part[0]] + part[1..];
    }
  }

  lemma NodeTopicIsJoined(group: string, kind: Kind, node: string)
    ensures NodeTopic(group, kind, node) == Join([SPBV01, group, MessagePart(Node, kind), node], '/')
  {
    JoinFour(SPBV01, group, MessagePart(Node, kind), node);
  }

  lemma DeviceTopicIsJoined(group: string, kind: Kind, node: string, device: string)
    ensures DeviceTopic(group, kind, node, device) ==
              Join([SPBV01, group, MessagePart(Device, kind), node, device], '/')
  {
    var pieces := [SPBV01, group, MessagePart(Device, kind), node, device];
    assert DeviceTopic(group, kind, node, device) ==
      SPBV01 + "/" + group + "/" + MessagePart(Device, kind) + "/" + node + "/" + device;
    assert pieces[1..] == [group, MessagePart(Device, kind), node, device];
    JoinFour(group, MessagePart(Device, kind), node, device);
    JoinCons(pieces);
    hide *;
    Prepended(SPBV01, group, MessagePart(Device, kind), node, device);
  }

  lemma Prepended(a: string, b: string, c: string, d: string, e: string)
    ensures a + "/" + (b + "/" + c + "/" + d + "/" + e) == a + "/" + b + "/" + c + "/" + d + "/" + e
  {
  }

  lemma JoinCons(pieces: seq<string>)
    requires |pieces| > 1
    ensures Join(pieces, '/') == pieces[0] + "/" + Join(pieces[1..], '/')
  {
  }

  lemma JoinFour(a: string, b: string, c: string, d: string)
    ensures Join([a, b, c, d], '/') == a + "/" + b + "/" + c + "/" + d
  {
    assert [a, b, c, d][1..] == [b, c, d] && [b, c, d][1..] == [c, d] && [c, d][1..] == [d];
    assert Join([d], '/') == d;
    assert Join([c, d], '/') == c + "/" + d;
    assert Join([b, c, d], '/') == b + "/" + (c + "/" + d);
    assert Join([a, b, c, d], '/') == a + "/" + (b + "/" + (c + "/" + d));
  }

  /** A node topic of valid names parses to what was printed exactly when the group is not called STATE. */
  lemma NodeTopicParsesExactly(
      utf8: string -> bool, payload: Payload, decode: bool, group: string, kind: Kind, node: string)
    requires ValidName(group) && ValidName(node) && utf8(group) && utf8(node) && Known(kind)
    ensures Split(NodeTopic(group, kind, node), '/') == [SPBV01, group, MessagePart(Node, kind), node]
    ensures var expected :=
              if decode && !payload.decodes then InvalidPublish(DecodePayloadError) else NodeEvent(group, node, kind);
            Parsed(utf8, payload, decode, NodeTopic(group, kind, node)) == expected <==> group != STATE
  {
    var pieces := [SPBV01, group, MessagePart(Node, kind), node];
    NodeTopicIsJoined(group, kind, node);
    PartParses(utf8, Node, kind);
    SplitOfJoin(pieces, '/');
    assert pieces[2..] == [MessagePart(Node, kind), node];
  }

  lemma DeviceTopicParsesExactly(
      utf8: string -> bool, payload: Payload, decode: bool, group: string, kind: Kind, node: string, device: string)
    requires ValidName(group) && ValidName(node) && ValidName(device) && Known(kind)
    requires utf8(group) && utf8(node) && utf8(device)
    ensures Split(DeviceTopic(group, kind, node, device), '/') ==
              [SPBV01, group, MessagePart(Device, kind), node, device]
    ensures var expected :=
              if decode && !payload.decodes then InvalidPublish(DecodePayloadError)
              else DeviceEvent(group, node, device, kind);
            Parsed(utf8, payload, decode, DeviceTopic(group, kind, node, device)) == expected <==> group != STATE
  {
    var pieces := [SPBV01, group, MessagePart(Device, kind), node, device];
    DeviceTopicIsJoined(group, kind, node, device);
    PartParses(utf8, Device, kind);
    SplitOfJoin(pieces, '/');
    assert pieces[2..] == [MessagePart(Device, kind), node, device];
  }

  /** The certificate of a host with a valid name comes back under that name. */
  lemma StateTopicParses(utf8: string -> bool, payload: Payload, decode: bool, host: string)
    requires ValidName(host) && utf8(host)
    ensures Parsed(utf8, payload, decode, StateHostTopic(host)) ==
            if payload.certificate.None? then InvalidPublish(StatePayloadJsonDecodeError)
            else StateEvent(host, payload.certificate.value)
  {
    var pieces := [SPBV01, STATE, host];
    assert pieces[1..] == [STATE, host] && [STATE, host][1..] == [host] && pieces[2..] == [host];
    assert Join([host], '/') == host;
    assert Join([STATE, host], '/') == STATE + "/" + host;
    assert StateHostTopic(host) == Join(pieces, '/');
    SplitOfJoin(pieces, '/');
  }

  /** Printed topics of valid names tell everything apart, a group called STATE included. */
  lemma PrintingIsInjective(
      group: string, kind: Kind, node: string, device: string,
      group': string, kind': Kind, node': string, device': string)
    requires ValidName(group) && ValidName(node) && ValidName(device) && Known(kind)
    requires ValidName(group') && ValidName(node') && ValidName(device') && Known(kind')
    ensures NodeTopic(group, kind, node) == NodeTopic(group', kind', node') <==>
              group == group' && kind == kind' && node == node'
    ensures DeviceTopic(group, kind, node, device) == DeviceTopic(group', kind', node', device') <==>
              group == group' && kind == kind' && node == node' && device == device'
    ensures NodeTopic(group, kind, node) != DeviceTopic(group', kind', node', device')
  {
    var all := (_: string) => true;
    var p := Payload(true, None);
    NodeTopicParsesExactly(all, p, true, group, kind, node);
    NodeTopicParsesExactly(all, p, true, group', kind', node');
    DeviceTopicParsesExactly(all, p, true, group, kind, node, device);
    DeviceTopicParsesExactly(all, p, true, group', kind', node', device');
    KindNamesDiffer(kind, kind');
    hide NodeTopic, DeviceTopic, Parsed, Split, ValidName, KindName;
  }

  lemma KindNamesDiffer(k: Kind, k': Kind)
    requires Known(k) && Known(k')
    ensures forall p: Producer, p': Producer :: MessagePart(p, k) == MessagePart(p', k') <==> p == p' && k == k'
  {
    var all := (_: string) => true;
    forall p: Producer, p': Producer ensures MessagePart(p, k) == MessagePart(p', k') <==> p == p' && k == k' {
      PartParses(all, p, k);
      PartParses(all, p', k');
    }
  }

  /** Any topic under the Sparkplug prefix that is taken for a node or device message prints as it came. */
  lemma ParsedTopicsReprint(utf8: string -> bool, payload: Payload, decode: bool, topic: string)
    requires Split(topic, '/')[0] == SPBV01
    ensures var e := Parsed(utf8, payload, decode, topic);
            && (e.NodeEvent? ==> NodeTopic(e.group, e.kind, e.node) == topic)
            && (e.DeviceEvent? ==> DeviceTopic(e.group, e.kind, e.node, e.device) == topic)
  {
    var pieces := Split(topic, '/');
    var e := Parsed(utf8, payload, decode, topic);
    JoinOfSplit(topic, '/');
    if e.NodeEvent? || e.DeviceEvent? {
      PartReprints(utf8, pieces[2]);
      hide Split, MessagePartParsed;
      if e.NodeEvent? {
        assert pieces == [SPBV01, e.group, MessagePart(Node, e.kind), e.node];
        NodeTopicIsJoined(e.group, e.kind, e.node);
      } else {
        assert pieces == [SPBV01, e.group, MessagePart(Device, e.kind), e.node, e.device];
        DeviceTopicIsJoined(e.group, e.kind, e.node, e.device);
      }
    }
  }

  /** The parser does not look at the prefix, and not beyond a host's name. */
  lemma PrefixAndExcessAreIgnored(utf8: string -> bool, payload: Payload, decode: bool, a: string, b: string)
    requires var p, q := Split(a, '/'), Split(b, '/');
             p[1..] == q[1..] || (|p| > 2 && |q| > 2 && p[1] == q[1] == STATE && p[2] == q[2])
    ensures Parsed(utf8, payload, decode, a) == Parsed(utf8, payload, decode, b)
  {
    var p, q := Split(a, '/'), Split(b, '/');
    assert |p| > 1 ==> p[2..] == p[1..][1..];
    assert |q| > 1 ==> q[2..] == q[1..][1..];
  }

  // Which topics are taken for what

  /** A kind the parser gives: a known one, or a name of its own in UTF-8. */
  predicate Readable(utf8: string -> bool, kind: Kind) {
    kind.Other? ==> kind.name != [] && kind.name !in {"BIRTH", "DEATH", "DATA", "CMD"} && utf8(kind.name)
  }

  lemma PartIsReadExactly(utf8: string -> bool, part: string, producer: Producer, kind: Kind)
    ensures MessagePartParsed(utf8, part) == Part(producer, kind) <==>
              part == MessagePart(producer, kind) && Readable(utf8, kind)
  {
    PartReprints(utf8, part);
    if part == MessagePart(producer, kind) {
      assert part[1..] == KindName(kind);
    }
  }

  lemma NodeEventsAreGivenExactly(
      utf8: string -> bool, payload: Payload, decode: bool, pieces: seq<string>,
      group: string, node: string, kind: Kind)
    requires pieces != []
    ensures PiecesParsed(utf8, payload, decode, pieces) == NodeEvent(group, node, kind) <==>
              && pieces[1..] == [group, MessagePart(Node, kind), node] && group != STATE
              && utf8(group) && utf8(node) && Readable(utf8, kind) && (decode ==> payload.decodes)
  {
    if |pieces| >= 3 {
      PiecesAre(pieces);
      PartIsReadExactly(utf8, pieces[2], Node, kind);
    }
    hide MessagePartParsed, MessagePart, Readable;
  }

  lemma DeviceEventsAreGivenExactly(
      utf8: string -> bool, payload: Payload, decode: bool, pieces: seq<string>,
      group: string, node: string, device: string, kind: Kind)
    requires pieces != []
    ensures PiecesParsed(utf8, payload, decode, pieces) == DeviceEvent(group, node, device, kind) <==>
              && pieces[1..] == [group, MessagePart(Device, kind), node, device] && group != STATE
              && utf8(group) && utf8(node) && utf8(device) && Readable(utf8, kind) && (decode ==> payload.decodes)
  {
    if |pieces| >= 3 {
      PiecesAre(pieces);
      PartIsReadExactly(utf8, pieces[2], Device, kind);
    }
    hide MessagePartParsed, MessagePart, Readable;
  }

  lemma StateEventsAreGivenExactly(
      utf8: string -> bool, payload: Payload, decode: bool, pieces: seq<string>, host: string, certificate: Certificate)
    requires pieces != []
    ensures PiecesParsed(utf8, payload, decode, pieces) == StateEvent(host, certificate) <==>
              [STATE, host] <= pieces[1..] && utf8(host) && payload.certificate == Some(certificate)
  {
    if |pieces| >= 3 {
      PiecesAre(pieces);
    }
    hide MessagePartParsed;
  }

  /**
   A topic is taken for a node's message, a device's, or a host's STATE exactly when its pieces after the
   first are that message's and valid UTF-8, and the payload is what is asked of it. Nothing else is.
   */
  lemma EventsAreGivenExactly(utf8: string -> bool, payload: Payload, decode: bool, topic: string, e: Event)
    requires !e.InvalidPublish?
    ensures var pieces := Split(topic, '/');
            Parsed(utf8, payload, decode, topic) == e <==>
              match e
              case NodeEvent(group, node, kind) =>
                && pieces[1..] == [group, MessagePart(Node, kind), node] && group != STATE
                && utf8(group) && utf8(node) && Readable(utf8, kind) && (decode ==> payload.decodes)
              case DeviceEvent(group, node, device, kind) =>
                && pieces[1..] == [group, MessagePart(Device, kind), node, device] && group != STATE
                && utf8(group) && utf8(node) && utf8(device) && Readable(utf8, kind) && (decode ==> payload.decodes)
              case StateEvent(host, certificate) =>
                [STATE, host] <= pieces[1..] && utf8(host) && payload.certificate == Some(certificate)
              case InvalidPublish(_) => false
  {
    var pieces := Split(topic, '/');
    hide Split, PiecesParsed;
    match e
    case NodeEvent(group, node, kind) => NodeEventsAreGivenExactly(utf8, payload, decode, pieces, group, node, kind);
    case DeviceEvent(group, node, device, kind) =>
      DeviceEventsAreGivenExactly(utf8, payload, decode, pieces, group, node, device, kind);
    case StateEvent(host, certificate) => StateEventsAreGivenExactly(utf8, payload, decode, pieces, host, certificate);
  }

  lemma PiecesAre(pieces: seq<string>)
    requires |pieces| >= 3
    ensures pieces[1..][0] == pieces[1] && pieces[1..][1] == pieces[2] == pieces[2..][0]
    ensures |pieces| >= 4 ==> pieces[1..][2] == pieces[3] == pieces[2..][1]
    ensures |pieces| >= 5 ==> pieces[1..][3] == pieces[4] == pieces[2..][2]
    ensures |pieces| == 4 ==> pieces[1..] == [pieces[1], pieces[2], pieces[3]]
    ensures |pieces| == 5 ==> pieces[1..] == [pieces[1], pieces[2], pieces[3], pieces[4]]
  {
  }

  /**
   What is wrong with a topic's piece at a place, if anything: it is missing, one too many, not valid UTF-8, or
   no message part. The first piece may be anything, and so may what follows the host of a STATE topic.
   */
  function Fault(utf8: string -> bool, pieces: seq<string>, i: nat): Option<Reason> {
    var state := |pieces| > 1 && pieces[1] == STATE;
    var node := |pieces| > 2 && pieces[2] != [] && pieces[2][0] == 'N';
    if i == 0 || (state && i != 2) then None
    else if i > 4 || (node && i == 4) then if i < |pieces| then Some(InvalidSparkplugTopic) else None
    else if i >= |pieces| then Some(InvalidSparkplugTopic)
    else if i == 2 && !state then PartFault(utf8, pieces[2])
    else if utf8(pieces[i]) then None
    else Some(Utf8Error)
  }

  function PartFault(utf8: string -> bool, part: string): Option<Reason> {
    if |part| < 2 || part[0] !in "ND" then Some(InvalidSparkplugTopic)
    else if part[1..] in {"BIRTH", "DEATH", "DATA", "CMD"} || utf8(part[1..]) then None
    else Some(Utf8Error)
  }

  /** The first fault of a topic decides what it is refused with. */
  lemma FirstFaultDecides(utf8: string -> bool, payload: Payload, decode: bool, topic: string, i: nat)
    requires var pieces := Split(topic, '/');
             Fault(utf8, pieces, i).Some? && forall j: nat :: j < i ==> Fault(utf8, pieces, j).None?
    ensures Parsed(utf8, payload, decode, topic) == InvalidPublish(Fault(utf8, Split(topic, '/'), i).value)
  {
    var pieces := Split(topic, '/');
    hide Split;
    assert (i > 1 ==> Fault(utf8, pieces, 1).None?) && (i > 2 ==> Fault(utf8, pieces, 2).None?);
    assert (i > 3 ==> Fault(utf8, pieces, 3).None?) && (i > 4 ==> Fault(utf8, pieces, 4).None?);
    assert i > 5 ==> Fault(utf8, pieces, 5).None?;
  }

  /** A topic without fault is refused only for its payload. */
  lemma FaultlessTopicsAreTaken(utf8: string -> bool, payload: Payload, decode: bool, topic: string)
    requires forall i: nat :: i <= 5 ==> Fault(utf8, Split(topic, '/'), i).None?
    ensures var state := |Split(topic, '/')| > 1 && Split(topic, '/')[1] == STATE;
            var e := Parsed(utf8, payload, decode, topic);
            if state && payload.certificate.None? then e == InvalidPublish(StatePayloadJsonDecodeError)
            else if !state && decode && !payload.decodes then e == InvalidPublish(DecodePayloadError)
            else !e.InvalidPublish?
  {
    var pieces := Split(topic, '/');
    hide Split;
    assert Fault(utf8, pieces, 1).None? && Fault(utf8, pieces, 2).None? && Fault(utf8, pieces, 3).None?;
    assert Fault(utf8, pieces, 4).None? && Fault(utf8, pieces, 5).None?;
  }

  /** Decoding refuses nothing but node and device messages, and those exactly when their payload does not decode. */
  lemma DecodingRefusesExactly(utf8: string -> bool, payload: Payload, topic: string)
    ensures var plain := Parsed(utf8, payload, false, topic);
            Parsed(utf8, payload, true, topic) ==
              if (plain.NodeEvent? || plain.DeviceEvent?) && !payload.decodes then InvalidPublish(DecodePayloadError)
              else plain
  {
    hide Split, MessagePartParsed;
  }

  /** The topics of the Sparkplug namespace, written out. */
  lemma NodeTopicsOfTheNamespace(group: string, node: string, host: string)
    ensures NodeTopic(group, Birth, node) == "spBv1.0/" + group + "/NBIRTH/" + node
    ensures NodeTopic(group, Death, node) == "spBv1.0/" + group + "/NDEATH/" + node
    ensures NodeTopic(group, Data, node) == "spBv1.0/" + group + "/NDATA/" + node
    ensures NodeTopic(group, Cmd, node) == "spBv1.0/" + group + "/NCMD/" + node
    ensures StateHostTopic(host) == "spBv1.0/STATE/" + host
  {
  }

  lemma DeviceTopicsOfTheNamespace(group: string, node: string, device: string)
    ensures DeviceTopic(group, Birth, node, device) == "spBv1.0/" + group + "/DBIRTH/" + node + "/" + device
    ensures DeviceTopic(group, Death, node, device) == "spBv1.0/" + group + "/DDEATH/" + node + "/" + device
    ensures DeviceTopic(group, Data, node, device) == "spBv1.0/" + group + "/DDATA/" + node + "/" + device
    ensures DeviceTopic(group, Cmd, node, device) == "spBv1.0/" + group + "/DCMD/" + node + "/" + device
  {
  }

  /** The parser as it runs: an iterator over the pieces, with an exit wherever one is missing or wrong. */
  method TopicToEvent(utf8: string -> bool, payload: Payload, decode: bool, topic: string) returns (e: Event)
    ensures e == Parsed(utf8, payload, decode, topic)
  {
    var iter := Split(topic, '/');
    iter := iter[1..];
    if iter == [] { return InvalidPublish(InvalidSparkplugTopic); }
    var group := iter[0];
    iter := iter[1..];
    if group == STATE {
      if iter == [] { return InvalidPublish(InvalidSparkplugTopic); }
      if !utf8(iter[0]) { return InvalidPublish(Utf8Error); }
      if payload.certificate.None? { return InvalidPublish(StatePayloadJsonDecodeError); }
      return StateEvent(iter[0], payload.certificate.value);
    }
    if !utf8(group) { return InvalidPublish(Utf8Error); }
    if iter == [] { return InvalidPublish(InvalidSparkplugTopic); }
    var part := MessagePartParsed(utf8, iter[0]);
    iter := iter[1..];
    if part.BadPart? { return InvalidPublish(part.reason); }
    if iter == [] { return InvalidPublish(InvalidSparkplugTopic); }
    var node := iter[0];
    iter := iter[1..];
    if !utf8(node) { return InvalidPublish(Utf8Error); }
    if part.producer == Node {
      if iter != [] { return InvalidPublish(InvalidSparkplugTopic); }
      return Delivered(payload, decode, NodeEvent(group, node, part.kind));
    }
    if iter == [] { return InvalidPublish(InvalidSparkplugTopic); }
    var device := iter[0];
    iter := iter[1..];
    if !utf8(device) { return InvalidPublish(Utf8Error); }
    if iter != [] { return InvalidPublish(InvalidSparkplugTopic); }
    return Delivered(payload, decode, DeviceEvent(group, node, device, part.kind));
  }
}

// A raw message on its way to the user: hexadecimal digits (src/dev_model/dm_utils.c:200-235) inside a
// JSON message (src/dev_model/dm_message.c:299-341), queued (src/dev_model/dm_ipc.c:77-137), parsed
// again and converted back (src/dev_model/impl_enos.c:408-419 and 482-510, src/infra/infra_string.c:85-115).
module RawPayload {
  import opened Bytes
  import opened JsonLex
  import opened JsonGrammar
  import opened JsonParser
  import opened JsonComplete
  import opened JsonNavigate
  import opened JsonLookup
  import opened MessageCache
  import opened Options
  import Registry = DeviceRegistry

  // ---------- hexadecimal digits ----------

  function HexChar(v: int): Byte
    requires 0 <= v < 16
  {
    if v <= 9 then 48 + v else 55 + v
  }

  lemma HexDigits(v: nat)
    requires v < 16
    ensures HexChar(v) == "0123456789ABCDEF"[v] as int
    ensures HexValue("0123456789ABCDEF"[v] as int) == v && HexValue("0123456789abcdef"[v] as int) == v
  {}

  // Anything that is no hexadecimal digit counts as 0.
  function HexValue(c: Byte): (v: int)
    ensures 0 <= v < 16
  {
    if 48 <= c <= 57 then c - 48 else if 97 <= c <= 102 then c - 87 else if 65 <= c <= 70 then c - 55 else 0
  }

  function HexText(s: seq<Byte>): (t: seq<Byte>)
    ensures |t| == 2 * |s|
  {
    if s == [] then [] else [HexChar(s[0] / 16), HexChar(s[0] % 16)] + HexText(s[1..])
  }

  function FromHex(t: seq<Byte>): (s: seq<Byte>)
    ensures |s| == |t| / 2
  {
    if |t| < 2 then [] else [HexValue(t[0]) * 16 + HexValue(t[1])] + FromHex(t[2..])
  }

  lemma {:induction false} HexRoundTrip(s: seq<Byte>)
    ensures FromHex(HexText(s)) == s
    decreases |s|
  {
    if s != [] {
      HexRoundTrip(s[1..]);
      assert HexText(s)[2..] == HexText(s[1..]);
    }
  }

  lemma {:induction false} HexIsBody(s: seq<Byte>)
    ensures IsBody(HexText(s))
    decreases |s|
  {
    if s != [] {
      HexIsBody(s[1..]);
      assert HexText(s)[1..][1..] == HexText(s[1..]);
      assert IsBody(HexText(s)[1..]);
    }
  }

  method HexToStr(input: seq<Byte>) returns (output: array<Byte>)
    requires |input| > 0
    ensures fresh(output) && output[..] == HexText(input) + [0]
  {
    hide HexText;
    output := new Byte[2 * |input| + 1](_ => 0);
    var index := 0;
    HexNothing();
    assert input[..0] == [];
    while index < |input|
      invariant index <= |input| && output[..2 * index] == HexText(input[..index]) && output[2 * |input|] == 0
    {
      HexAppend(input[..index], input[index]);
      assert input[..index + 1] == input[..index] + [input[index]];
      PutDigits(output, index, input[index]);
      index := index + 1;
    }
    assert input[..index] == input;
  }

  method PutDigits(output: array<Byte>, index: nat, c: Byte)
    requires 2 * index + 2 < output.Length
    modifies output
    ensures output[..2 * index + 2] == old(output[..2 * index]) + [HexChar(c / 16), HexChar(c % 16)]
    ensures output[output.Length - 1] == old(output[output.Length - 1])
  {
    hide HexChar;
    output[index * 2] := HexChar(c / 16 % 16);
    output[index * 2 + 1] := HexChar(c % 16);
  }

  lemma HexNothing()
    ensures HexText([]) == []
  {}

  lemma {:induction false} HexAppend(s: seq<Byte>, c: Byte)
    ensures HexText(s + [c]) == HexText(s) + [HexChar(c / 16), HexChar(c % 16)]
    decreases |s|
  {
    if s != [] {
      HexAppend(s[1..], c);
      assert (s + [c])[1..] == s[1..] + [c];
    }
  }

  // Nothing is written for a text of odd length.
  method HexstrConvert(input: seq<Byte>, output: array<Byte>)
    modifies output
    ensures var n := if |input| % 2 != 0 then 0 else if |input| / 2 < output.Length then |input| / 2 else output.Length;
            output[..n] == FromHex(input)[..n] && output[n..] == old(output[n..])
  {
    if |input| % 2 != 0 {
      return;
    }
    var i := 0;
    while i < |input| / 2 && i < output.Length
      invariant i <= output.Length && i <= |input| / 2
      invariant output[..i] == FromHex(input)[..i] && output[i..] == old(output[i..])
    {
      FromHexAt(input, i);
      output[i] := HexValue(input[2 * i]) * 16 + HexValue(input[2 * i + 1]);
      i := i + 1;
    }
  }

  lemma {:induction false} FromHexAt(t: seq<Byte>, k: nat)
    requires k < |t| / 2
    ensures FromHex(t)[k] == HexValue(t[2 * k]) * 16 + HexValue(t[2 * k + 1])
    decreases k
  {
    if k > 0 {
      FromHexAt(t[2..], k - 1);
    }
  }

  // ---------- the message ----------

  // The keys "devid" and "payload".
  const DEVID: seq<Byte> := [100, 101, 118, 105, 100]
  const PAYLOAD: seq<Byte> := [112, 97, 121, 108, 111, 97, 100]

  function Decimal(n: nat): (s: seq<Byte>)
    ensures |s| > 0 && forall i :: 0 <= i < |s| ==> IsDigit(s[i])
  {
    if n < 10 then [48 + n] else Decimal(n / 10) + [48 + n % 10]
  }

  // The decimal text of a number: its digits without leading zeros.
  predicate IsDecimal(t: seq<Byte>, n: nat) {
    && t != [] && AllDigits(t) && (|t| > 1 ==> t[0] != '0' as int)
    && DecimalValue(t) == n
  }

  lemma {:induction false} DecimalIs(n: nat)
    ensures IsDecimal(Decimal(n), n)
    decreases n
  {
    if n >= 10 {
      DecimalIs(n / 10);
      var t := Decimal(n);
      assert t[..|t| - 1] == Decimal(n / 10);
    }
  }

  // The format {"devid":%d,"payload":"%.*s"}.
  function Message(devid: nat, hex: seq<Byte>): seq<Byte> {
    [LEFT_BRACE, QUOTE] + DEVID + [QUOTE, COLON] + Decimal(devid)
    + [COMMA, QUOTE] + PAYLOAD + [QUOTE, COLON, QUOTE] + hex + [QUOTE, RIGHT_BRACE]
  }

  lemma MessageText(devid: nat, hex: seq<Byte>)
    ensures Message(devid, hex) == Ascii("{\"devid\":") + Decimal(devid) + Ascii(",\"payload\":\"") + hex + Ascii("\"}")
    ensures DEVID == Ascii("devid") && PAYLOAD == Ascii("payload")
  {
    hide Decimal;
    MessagePieces();
  }

  lemma MessagePieces()
    ensures Ascii("{\"devid\":") == [LEFT_BRACE, QUOTE] + DEVID + [QUOTE, COLON]
    ensures Ascii(",\"payload\":\"") == [COMMA, QUOTE] + PAYLOAD + [QUOTE, COLON, QUOTE]
    ensures Ascii("\"}") == [QUOTE, RIGHT_BRACE] && Ascii("devid") == DEVID && Ascii("payload") == PAYLOAD
  {}

  function MessageTree(devid: nat, hex: seq<Byte>): Value {
    Object(MoreMembers([], DEVID, [], [], Number(Decimal(devid)), [],
                       LastMember([], PAYLOAD, [], [], Text(hex), [])))
  }

  lemma MessageIsTree(devid: nat, hex: seq<Byte>)
    ensures Render(MessageTree(devid, hex)) == Message(devid, hex)
  {
    hide Decimal, RenderMembers;
    var digits := Decimal(devid);
    PayloadMember(hex);
    DevidMember(digits, hex);
    Join(digits, hex);
  }

  lemma PayloadMember(hex: seq<Byte>)
    ensures RenderMembers(LastMember([], PAYLOAD, [], [], Text(hex), [])) == [QUOTE] + PAYLOAD + [QUOTE, COLON, QUOTE] + hex + [QUOTE]
  {
    var last := LastMember([], PAYLOAD, [], [], Text(hex), []);
    assert RenderKey(last) == [QUOTE] + PAYLOAD + [QUOTE, COLON];
    assert Render(Text(hex)) + [] == [QUOTE] + hex + [QUOTE];
  }

  lemma DevidMember(digits: seq<Byte>, hex: seq<Byte>)
    ensures var last := LastMember([], PAYLOAD, [], [], Text(hex), []);
            RenderMembers(MoreMembers([], DEVID, [], [], Number(digits), [], last))
            == ([QUOTE] + DEVID + [QUOTE, COLON]) + digits + ([COMMA] + RenderMembers(last))
  {
    var last := LastMember([], PAYLOAD, [], [], Text(hex), []);
    var ms := MoreMembers([], DEVID, [], [], Number(digits), [], last);
    assert RenderKey(ms) == [QUOTE] + DEVID + [QUOTE, COLON];
    assert Render(ms.value) + [] == digits;
  }

  lemma Join(digits: seq<Byte>, hex: seq<Byte>)
    ensures [LEFT_BRACE]
            + (([QUOTE] + DEVID + [QUOTE, COLON]) + digits + ([COMMA] + ([QUOTE] + PAYLOAD + [QUOTE, COLON, QUOTE] + hex + [QUOTE])))
            + [RIGHT_BRACE]
            == [LEFT_BRACE, QUOTE] + DEVID + [QUOTE, COLON] + digits
               + [COMMA, QUOTE] + PAYLOAD + [QUOTE, COLON, QUOTE] + hex + [QUOTE, RIGHT_BRACE]
  {
    var key, mid := [QUOTE] + DEVID + [QUOTE, COLON], [QUOTE] + PAYLOAD + [QUOTE, COLON, QUOTE];
    assert [LEFT_BRACE] + key == [LEFT_BRACE, QUOTE] + DEVID + [QUOTE, COLON];
    assert [COMMA] + mid == [COMMA, QUOTE] + PAYLOAD + [QUOTE, COLON, QUOTE];
    assert [QUOTE] + [RIGHT_BRACE] == [QUOTE, RIGHT_BRACE];
  }

  lemma {:induction false} DecimalLength(n: nat, digits: nat)
    requires digits > 0 && n < Ten(digits)
    ensures |Decimal(n)| <= digits
    decreases digits
  {
    if n >= 10 {
      DecimalLength(n / 10, digits - 1);
    }
  }

  function Ten(digits: nat): (t: nat)
    ensures t > 0
  {
    if digits == 0 then 1 else 10 * Ten(digits - 1)
  }

  lemma DigitsAreToken(t: seq<Byte>)
    requires 0 < |t| <= MAX_TOKEN && forall i :: 0 <= i < |t| ==> IsDigit(t[i])
    ensures IsToken(t)
  {
    hide DigitsEnd;
    RunOfDigits(t, 0, |t|);
  }

  // ---------- finding the payload ----------

  lemma PlainKey(n: Node, key: seq<Byte>, atoi: seq<Byte> -> int)
    requires forall i :: 0 <= i < |key| ==> key[i] != DOT && !IsBracket(key[i])
    ensures PathNode(n, key, atoi) == FieldNode(n, key)
  {
    hide FieldNode;
    assert DotFrom(key, 0) == |key| && BracketFrom(key, 0) == |key|;
    assert key[..|key|] == key;
  }

  lemma TreeWellFormed(devid: nat, hex: seq<Byte>)
    requires IsBody(hex) && |Decimal(devid)| <= MAX_TOKEN
    ensures WellFormed(MessageTree(devid, hex)) && Height(MessageTree(devid, hex)) == 1
  {
    hide IsToken, Decimal, IsBody;
    DigitsAreToken(Decimal(devid));
    PlainBody(DEVID);
    PlainBody(PAYLOAD);
    var last := LastMember([], PAYLOAD, [], [], Text(hex), []);
    assert WellFormedMembers(last) && HeightMembers(last) == 0;
    var ms := MoreMembers([], DEVID, [], [], Number(Decimal(devid)), [], last);
    assert WellFormedMembers(ms) && HeightMembers(ms) == 0;
  }

  lemma {:induction false} PlainBody(s: seq<Byte>)
    requires forall i :: 0 <= i < |s| ==> s[i] != QUOTE && s[i] != BACKSLASH
    ensures IsBody(s)
    decreases |s|
  {
    if s != [] {
      PlainBody(s[1..]);
    }
  }

  // In the message, the path "payload" leads to the hexadecimal text, and "devid" to the number.
  lemma MessageFields(devid: nat, hex: seq<Byte>, atoi: seq<Byte> -> int)
    requires IsBody(hex) && |Decimal(devid)| <= MAX_TOKEN
    ensures var text := Message(devid, hex); var r := ParseAt(text);
            && r.Parsed? && Inside(text, r.item) && r.item.kind == ObjectItem
            && var d := Path(text, r.item, DEVID, atoi); var p := Path(text, r.item, PAYLOAD, atoi);
            && d.Found? && d.item.kind == NumberItem && Inside(text, d.item) && TextOf(text, d.item) == Decimal(devid)
            && p.Found? && p.item.kind == StringItem && Inside(text, p.item) && TextOf(text, p.item) == hex
  {
    hide Decimal, IsBody, Path, PathNode, ParseAt, Message, WellFormed, Render;
    var v := MessageTree(devid, hex);
    var text := Message(devid, hex);
    MessageIsTree(devid, hex);
    TreeWellFormed(devid, hex);
    TextsAccepted([], v, []);
    assert [] + Render(v) + [] == text;
    var n := Node(v, 0);
    assert text[..|text|] == text;
    PathIsNode(text, n, DEVID, atoi);
    PathIsNode(text, n, PAYLOAD, atoi);
    PlainKey(n, DEVID, atoi);
    PlainKey(n, PAYLOAD, atoi);
    FieldsOfTree(devid, hex);
    ItemTexts(text, FieldNode(n, DEVID));
    ItemTexts(text, FieldNode(n, PAYLOAD));
  }

  lemma FieldsOfTree(devid: nat, hex: seq<Byte>)
    ensures var n := Node(MessageTree(devid, hex), 0);
            && FieldNode(n, DEVID).Node? && FieldNode(n, DEVID).value == Number(Decimal(devid))
            && FieldNode(n, PAYLOAD).Node? && FieldNode(n, PAYLOAD).value == Text(hex)
  {
    hide Decimal, Render, RenderKey;
    var last := LastMember([], PAYLOAD, [], [], Text(hex), []);
    var ms := MoreMembers([], DEVID, [], [], Number(Decimal(devid)), [], last);
    assert |DEVID| != |PAYLOAD|;
    var o := 1 + |RenderKey(ms)| + |Render(ms.value)| + 1;
    assert FirstMember(ms, 1, PAYLOAD) == FirstMember(last, o, PAYLOAD);
  }

  // The item of a number or a string holds its token or its body.
  lemma ItemTexts(b: seq<Byte>, n: Node)
    requires n.Node? && At(b, n.at, Render(n.value)) && (n.value.Number? || n.value.Text?)
    ensures var item := ItemOf(n.value, n.at);
            Inside(b, item) && TextOf(b, item) == if n.value.Number? then n.value.token else n.value.body
  {
    if n.value.Text? {
      AtSplit(b, n.at, [QUOTE] + n.value.body, [QUOTE]);
      AtSplit(b, n.at, [QUOTE], n.value.body);
    }
  }

  // ---------- the code ----------

  const UINT32_STRLEN: nat := 10
  const FORMAT_LEN: nat := 29

  const MODEL_DOWN_RAW: nat := 21

  // The message that snprintf writes: its buffer is long enough, so nothing is cut off.
  method WriteMessage(devid: nat, payload: seq<Byte>) returns (message: seq<Byte>)
    requires |payload| > 0 && devid <= INT_MAX
    ensures message == Message(devid, HexText(payload))
  {
    var hexstr := HexToStr(payload);
    var hex := hexstr[..hexstr.Length - 1];
    var messageLen := FORMAT_LEN + UINT32_STRLEN + |hex| + 1;
    TenDigits(devid);
    message := Message(devid, hex);
    message := message[..if |message| < messageLen then |message| else messageLen - 1];
  }

  // The ids of devices are values of int.
  predicate IntIds(devices: seq<Registry.Device>) {
    forall i :: 0 <= i < |devices| ==> 0 <= devices[i].devid <= INT_MAX
  }

  // The device that the keys name, when the keys are short enough and registered.
  function DevidOf(devices: seq<Registry.Device>, productKey: string, deviceKey: string): (devid: Option<nat>)
    requires IntIds(devices)
    ensures devid.Some? ==> devid.value <= INT_MAX
  {
    var p := Registry.PlaceOfKeys(devices, productKey, deviceKey, 0);
    if |productKey| > Registry.PRODUCT_KEY_LEN || |deviceKey| > Registry.DEVICE_KEY_LEN || p == |devices| then None
    else Some(devices[p].devid)
  }

  function RawEvent(devid: nat, payload: seq<Byte>): Event {
    Notice(MODEL_DOWN_RAW, Message(devid, HexText(payload)))
  }

  // dm_msg_thing_model_down_raw.  Whether there is memory for the texts and for the event is a parameter.
  method DownRaw(manager: Registry.Manager, messages: Messages, productKey: string, deviceKey: string,
                 payload: seq<Byte>, textMemory: bool, eventMemory: bool) returns (ok: bool)
    requires messages.Valid() && IntIds(manager.devList)
    modifies messages`queue, messages`size, messages`accepted
    ensures messages.Valid()
    ensures var devid := DevidOf(old(manager.devList), productKey, deviceKey); var s := old(messages.View());
            if payload == [] || devid.None? || !textMemory then !ok && messages.View() == s
            else
              && messages.View() == Enqueue(s, RawEvent(devid.value, payload), eventMemory)
              && (ok <==> eventMemory && |s.queue| < s.queueMax)
  {
    hide Message, HexText;
    ok := false;
    if |productKey| >= Registry.PRODUCT_KEY_LEN + 1 || |deviceKey| >= Registry.DEVICE_KEY_LEN + 1 || payload == [] {
      return;
    }
    var p := manager.SearchByKeys(productKey, deviceKey);
    if p == |manager.devList| || !textMemory {
      return;
    }
    var message := WriteMessage(manager.devList[p].devid, payload);
    ok := messages.SendToUser(Notice(MODEL_DOWN_RAW, message), eventMemory);
  }

  lemma TenDigits(devid: nat)
    requires devid <= INT_MAX
    ensures |Decimal(devid)| <= UINT32_STRLEN
  {
    assert Ten(5) == 100000 && Ten(10) == 100000 * Ten(5);
    hide Decimal, Ten;
    DecimalLength(devid, 10);
  }

  // What the event callback does with an event: nothing that concerns raw data, nothing at all, a call
  // of the user's callback with the text of the device id and the bytes; or it uses values that were
  // never set, which C leaves undefined.
  datatype Effect = Other | Ignored | Callback(devid: seq<Byte>, rawData: seq<Byte>) | Undefined

  // The MODEL_DOWN_RAW case, when memory is there.  Of JSON that is no object the items are not even
  // cleared before they are looked at, and of a text of odd length no byte is converted.
  function EffectOfMessage(message: seq<Byte>, atoi: seq<Byte> -> int): Effect {
    var parsed := ParseAt(message);
    if parsed.Failed? then Ignored
    else if parsed.item.kind != ObjectItem then Undefined
    else
      ParsedInside(message);
      var d := Path(message, parsed.item, DEVID, atoi);
      var p := Path(message, parsed.item, PAYLOAD, atoi);
      if d.Missing? || d.item.kind != NumberItem || p.Missing? || p.item.kind != StringItem then Ignored
      else
        PathInside(message, parsed.item, DEVID, atoi);
        PathInside(message, parsed.item, PAYLOAD, atoi);
        if p.item.length % 2 != 0 then Undefined
        else Callback(TextOf(message, d.item), FromHex(TextOf(message, p.item)))
  }

  function EffectOf(e: Event, atoi: seq<Byte> -> int): Effect {
    if e.Notice? && e.kind == MODEL_DOWN_RAW then EffectOfMessage(e.message, atoi) else Other
  }

  method OnDownRaw(message: seq<Byte>, atoi: seq<Byte> -> int) returns (effect: Effect)
    ensures effect == EffectOfMessage(message, atoi)
  {
    hide Path, ParseAt, FromHex;
    var ok, lite := LiteCjsonParse(message);
    if !ok {
      return Ignored;
    }
    ParsedInside(message);
    if lite.kind != ObjectItem {
      return Undefined;
    }
    WholePath(message, lite, DEVID, atoi);
    WholePath(message, lite, PAYLOAD, atoi);
    hide CutPath;
    var okDevid, itemDevid := ObjectItemAtPath(message, lite, DEVID, |DEVID|, atoi);
    var okPayload, itemPayload := ObjectItemAtPath(message, lite, PAYLOAD, |PAYLOAD|, atoi);
    if !okDevid || itemDevid.kind != NumberItem || !okPayload || itemPayload.kind != StringItem {
      return Ignored;
    }
    PathInside(message, lite, DEVID, atoi);
    PathInside(message, lite, PAYLOAD, atoi);
    var rawDataLen := itemPayload.length / 2;
    var rawData := new Byte[rawDataLen];
    var hex := TextOf(message, itemPayload);
    HexstrConvert(hex, rawData);
    if itemPayload.length % 2 != 0 {
      return Undefined;
    }
    assert rawData[..rawDataLen] == rawData[..] && FromHex(hex)[..rawDataLen] == FromHex(hex);
    effect := Callback(TextOf(message, itemDevid), rawData[..]);
  }

  // The callback gets the device id, as a decimal text, and the bytes.
  predicate HandsOver(effect: Effect, devid: nat, payload: seq<Byte>) {
    effect.Callback? && IsDecimal(effect.devid, devid) && effect.rawData == payload
  }

  // The events of one dispatch, handed to the event callback one after the other.
  method HandleEvents(events: seq<Event>, atoi: seq<Byte> -> int) returns (effects: seq<Effect>)
    ensures |effects| == |events| && forall i :: 0 <= i < |events| ==> effects[i] == EffectOf(events[i], atoi)
  {
    hide EffectOfMessage;
    effects := [];
    for i := 0 to |events|
      invariant |effects| == i && forall k :: 0 <= k < i ==> effects[k] == EffectOf(events[k], atoi)
    {
      var effect := Other;
      if events[i].Notice? && events[i].kind == MODEL_DOWN_RAW {
        effect := OnDownRaw(events[i].message, atoi);
      }
      effects := effects + [effect];
    }
  }

  lemma ParsedInside(b: seq<Byte>)
    requires ParseAt(b).Parsed?
    ensures Inside(b, ParseAt(b).item)
  {
    hide ValueAt, Skip, MarkEnd;
    ValueInside(b, Skip(b, MarkEnd(b)), 0);
  }

  lemma {:induction false} PathInside(b: seq<Byte>, lite: Item, key: seq<Byte>, atoi: seq<Byte> -> int)
    requires Inside(b, lite) && Path(b, lite, key, atoi).Found?
    ensures Inside(b, Path(b, lite, key, atoi).item)
    decreases |key|
  {
    hide Step, Inside;
    var dot := DotFrom(key, 0);
    var found := Step(b, lite, key[..dot], atoi);
    if dot < |key| {
      PathInside(b, found.item, key[dot + 1..], atoi);
    }
  }

  // ---------- the whole way ----------

  // The user's callback gets the bytes that came, for every payload and device.
  lemma RawEventIsPayload(devid: nat, payload: seq<Byte>, atoi: seq<Byte> -> int)
    requires devid <= INT_MAX
    ensures HandsOver(EffectOf(RawEvent(devid, payload), atoi), devid, payload)
  {
    hide Path, ParseAt, FromHex, Message, HexText, Inside, TextOf, Decimal, IsDecimal;
    HexIsBody(payload);
    HexRoundTrip(payload);
    TenDigits(devid);
    DecimalIs(devid);
    var text := Message(devid, HexText(payload));
    MessageFields(devid, HexText(payload), atoi);
    var p := Path(text, ParseAt(text).item, PAYLOAD, atoi);
    TextLength(text, p.item);
  }

  lemma TextLength(b: seq<Byte>, item: Item)
    requires Inside(b, item)
    ensures |TextOf(b, item)| == item.length
  {}

  // Whatever happens while the event is queued: when its turn has come, it was the one delivered under
  // its number, and its effect is the payload.
  lemma PayloadArrives(s: State, devid: nat, payload: seq<Byte>, ops: seq<Operation>, atoi: seq<Byte> -> int)
    requires Inv(s) && devid <= INT_MAX && |s.queue| < s.queueMax
    requires AllFresh(Enqueue(s, RawEvent(devid, payload), true), ops)
    ensures var later := Run(Enqueue(s, RawEvent(devid, payload), true), ops);
            |s.accepted| < |later.delivered| ==>
              HandsOver(EffectOf(later.delivered[|s.accepted|], atoi), devid, payload)
  {
    hide Run, Inv, EffectOf, HandsOver, Message;
    var e := RawEvent(devid, payload);
    var sent := Enqueue(s, e, true);
    NotifyKeeps(s, e, true);
    if |s.accepted| < |Run(sent, ops).delivered| {
      DeliveredInTurn(sent, ops, |s.accepted|);
      RawEventIsPayload(devid, payload, atoi);
    }
  }

  // From the cloud to the user's callback: when the keys are registered and there is memory and room in
  // the queue, the next dispatch hands the payload over, behind the events that waited before it.
  method Deliver(manager: Registry.Manager, messages: Messages, productKey: string, deviceKey: string,
                 payload: seq<Byte>, textMemory: bool, eventMemory: bool, now: nat, granted: nat -> bool,
                 atoi: seq<Byte> -> int) returns (ok: bool, effects: seq<Effect>)
    requires messages.Valid() && Inv(messages.View()) && IntIds(manager.devList)
    requires messages.maxSize <= DISPATCH_MAX
    modifies messages
    ensures var devid := DevidOf(old(manager.devList), productKey, deviceKey); var waiting := |old(messages.queue)|;
            && (ok <==> payload != [] && devid.Some? && textMemory && eventMemory && waiting < messages.maxSize)
            && (ok ==> waiting < |effects| && HandsOver(effects[waiting], devid.value, payload))
  {
    hide Inv, EffectOf, HandsOver, Message, Dispatch, DevidOf;
    ghost var s := messages.View();
    ghost var devid := DevidOf(manager.devList, productKey, deviceKey);
    ok := DownRaw(manager, messages, productKey, deviceKey, payload, textMemory, eventMemory);
    ghost var sent := messages.View();
    if ok {
      NotifyKeeps(s, RawEvent(devid.value, payload), true);
      TurnDelivers(sent, now, granted);
      RawEventIsPayload(devid.value, payload, atoi);
    }
    var handed := messages.DispatchAll(now, granted);
    effects := HandleEvents(handed, atoi);
    if ok {
      HandedOver(sent, messages.View(), handed, |s.queue|);
    }
  }

  lemma HandedOver(sent: State, after: State, handed: seq<Event>, i: nat)
    requires |sent.queue| <= DISPATCH_MAX && i < |sent.queue| && after.delivered == sent.delivered + handed
    requires IsPrefix(sent.delivered + sent.queue[..if |sent.queue| < DISPATCH_MAX then |sent.queue| else DISPATCH_MAX], after.delivered)
    ensures i < |handed| && handed[i] == sent.queue[i]
  {
    assert sent.queue[..|sent.queue|] == sent.queue;
    var front := sent.delivered + sent.queue;
    assert after.delivered[..|front|][|sent.delivered| + i] == front[|sent.delivered| + i];
  }
}

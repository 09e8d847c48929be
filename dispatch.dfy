/**
 * The delivery dispatcher: `send_lan_image`, `send_mqtt_image`,
 * `print_master` and `send_manual_cut`.
 *
 * Sockets and the MQTT client are not modelled; what they do when used is
 * the abstract `Network` parameter. Each transport attempt is described by
 * what it did (skipped, failed, or the bytes or message it delivered), so
 * that the order in which the dispatcher tries them can be stated.
 */
module Dispatch {
  import opened Wrappers
  import opened EscPos
  import Settings

  /** The raw TCP port of the network printer. */
  const PrinterPort: nat := 9100
  /** The fallbacks `.get` uses for the broker port and topic. */
  const DefaultMqttPort: int := 8883
  const DefaultTopic: string := "Prn20B1B50C2199"
  /** MQTT quality of service used for every publish. */
  const PublishQos: nat := 2
  const KeepAliveSeconds: nat := 30

  const StatusLan: string := "OK (LAN)"
  const StatusCloud: string := "OK (Cloud)"
  const StatusFailed: string := "Failed (Check Settings)"

  /** The transport settings as read from the settings dictionary with
      `.get(key, default)`; an empty address or host means "not configured". */
  datatype Transport = Transport(printerIp: string, mqttHost: string, mqttPort: int,
                                 mqttUser: string, mqttPass: string, mqttTopic: string, mqttUseTls: bool)

  /** `settings.get(key, default)` for a key holding text. */
  function TextSetting(settings: Settings.Dict, key: string, default: string): string {
    if key in settings && settings[key].JStr? then settings[key].s else default
  }

  /** Python truthiness of a JSON value; a value of another kind counts as true. */
  function Truthy(j: Settings.Json): bool {
    match j
    case JNull => false
    case JBool(b) => b
    case JInt(i) => i != 0
    case JStr(s) => s != ""
    case JOther => true
  }

  /** The transport settings the dispatcher reads from `APP_SETTINGS`, each with its `.get` fallback. */
  function TransportOf(settings: Settings.Dict): (t: Transport)
    ensures "printer_ip" !in settings ==> t.printerIp == ""
    ensures "mqtt_host" !in settings ==> t.mqttHost == ""
    ensures "mqtt_port" !in settings ==> t.mqttPort == DefaultMqttPort
    ensures "mqtt_topic" !in settings ==> t.mqttTopic == DefaultTopic
    ensures "mqtt_use_tls" !in settings ==> t.mqttUseTls
    ensures "mqtt_use_tls" in settings ==> t.mqttUseTls == Truthy(settings["mqtt_use_tls"])
    ensures "mqtt_user" !in settings ==> t.mqttUser == ""
    ensures "mqtt_pass" !in settings ==> t.mqttPass == ""
    ensures forall key :: key in settings && settings[key].JStr? ==>
              (key == "printer_ip" ==> t.printerIp == settings[key].s)
              && (key == "mqtt_host" ==> t.mqttHost == settings[key].s)
              && (key == "mqtt_topic" ==> t.mqttTopic == settings[key].s)
              && (key == "mqtt_user" ==> t.mqttUser == settings[key].s)
              && (key == "mqtt_pass" ==> t.mqttPass == settings[key].s)
    ensures "mqtt_port" in settings && settings["mqtt_port"].JInt? ==> t.mqttPort == settings["mqtt_port"].i
  {
    Transport(TextSetting(settings, "printer_ip", ""),
              TextSetting(settings, "mqtt_host", ""),
              if "mqtt_port" in settings && settings["mqtt_port"].JInt? then settings["mqtt_port"].i else DefaultMqttPort,
              TextSetting(settings, "mqtt_user", ""),
              TextSetting(settings, "mqtt_pass", ""),
              TextSetting(settings, "mqtt_topic", DefaultTopic),
              if "mqtt_use_tls" in settings then Truthy(settings["mqtt_use_tls"]) else true)
  }

  /** Where the network printer is reached. */
  datatype Endpoint = Endpoint(host: string, port: nat)

  /** What the outside world does when a transport is used. */
  datatype Network = Network(
    lanConnects: bool,     // socket.create_connection succeeds
    lanAccepts: bool,      // sock.sendall and sock.close succeed
    mqttInstalled: bool,   // paho.mqtt.client can be imported
    brokerAccepts: bool)   // connect, publish, loop and disconnect succeed

  /** What `send_lan_image` did. */
  datatype LanOutcome =
    | NoAddress                          // printer_ip empty: returns False, no socket opened
    | ConnectFailed                      // OSError while connecting: returns False
    | EncodeRaised(error: EncodeError)   // the raster header overflowed: the exception escapes
    | WriteFailed(endpoint: Endpoint, stream: seq<byte>)   // OSError while writing the stream: returns False
    | Delivered(endpoint: Endpoint, stream: seq<byte>)     // the stream was written: returns True

  /** `send_lan_image(img, cut)`. The socket is opened before the raster is encoded. */
  function SendLanImage(t: Transport, img: Bitmap, cut: bool, net: Network): (o: LanOutcome)
    ensures o.NoAddress? <==> t.printerIp == ""
    ensures o.ConnectFailed? <==> t.printerIp != "" && !net.lanConnects
    ensures o.EncodeRaised? <==> t.printerIp != "" && net.lanConnects && !Encodable(img)
    ensures o.Delivered? <==> t.printerIp != "" && net.lanConnects && Encodable(img) && net.lanAccepts
    ensures o.Delivered? || o.WriteFailed? ==>
              o.endpoint == Endpoint(t.printerIp, PrinterPort) && o.stream == LanStream(Raster(img).value, cut)
  {
    if t.printerIp == "" then NoAddress
    else if !net.lanConnects then ConnectFailed
    else match Raster(img)
      case Failure(e) => EncodeRaised(e)
      case Success(raster) =>
        var stream := LanStream(raster, cut);
        var endpoint := Endpoint(t.printerIp, PrinterPort);
        if net.lanAccepts then Delivered(endpoint, stream) else WriteFailed(endpoint, stream)
  }

  /** The boolean `send_lan_image` returns, or the exception it raises. */
  function LanResult(o: LanOutcome): Result<bool, EncodeError> {
    match o
    case EncodeRaised(e) => Failure(e)
    case Delivered(_, _) => Success(true)
    case _ => Success(false)
  }

  /** The JSON object published to the broker. */
  datatype Payload = Payload(ticketId: string, dataType: string, dataBase64: Option<string>,
                             cutPaper: int, source: Option<string>)

  /** One publish: where to, over what, and what. */
  datatype Publication = Publication(host: string, port: int, keepAlive: nat, useTls: bool,
                                     credentials: Option<(string, string)>,
                                     topic: string, qos: nat, payload: Payload)

  /** What an MQTT delivery did. */
  datatype CloudOutcome =
    | NoHost                  // mqtt_host empty: returns False, no client created
    | NoClient                // paho-mqtt missing: returns False
    | BrokerFailed            // connecting or publishing raised: returns False
    | Published(pub: Publication)

  /** The payload of an image ticket: the dithered image as base64 PNG. */
  function ImagePayload(pngBase64: string, stamp: nat, cut: bool): Payload {
    Payload("desk-" + Decimal(stamp), "png", Some(pngBase64), if cut then 1 else 0, Some("Modern_Desktop"))
  }

  /** The payload of a cut-only command. */
  const CutOnlyPayload: Payload := Payload("cut-only", "cmd", None, 1, None)

  function PublicationOf(t: Transport, payload: Payload): Publication {
    Publication(t.mqttHost, t.mqttPort, KeepAliveSeconds, t.mqttUseTls,
                if t.mqttUser != "" then Some((t.mqttUser, t.mqttPass)) else None,
                t.mqttTopic, PublishQos, payload)
  }

  /** Publishing a payload through the configured broker. */
  function Publish(t: Transport, payload: Payload, net: Network): (o: CloudOutcome)
    ensures o.NoHost? <==> t.mqttHost == ""
    ensures o.NoClient? <==> t.mqttHost != "" && !net.mqttInstalled
    ensures o.Published? <==> t.mqttHost != "" && net.mqttInstalled && net.brokerAccepts
    ensures o.Published? ==>
              && o.pub.host == t.mqttHost && o.pub.port == t.mqttPort && o.pub.keepAlive == KeepAliveSeconds
              && o.pub.useTls == t.mqttUseTls
              && o.pub.topic == t.mqttTopic && o.pub.qos == PublishQos && o.pub.payload == payload
              && o.pub.credentials == (if t.mqttUser != "" then Some((t.mqttUser, t.mqttPass)) else None)
  {
    if t.mqttHost == "" then NoHost
    else if !net.mqttInstalled then NoClient
    else if !net.brokerAccepts then BrokerFailed
    else Published(PublicationOf(t, payload))
  }

  /** `send_mqtt_image(img, cut)`, with `pngBase64` the encoded image and
      `stamp` the integer Unix time of the call. */
  function SendMqttImage(t: Transport, pngBase64: string, stamp: nat, cut: bool, net: Network): (o: CloudOutcome)
    ensures o.Published? <==> t.mqttHost != "" && net.mqttInstalled && net.brokerAccepts
    ensures o.Published? ==>
              && o.pub.payload.dataType == "png" && o.pub.payload.dataBase64 == Some(pngBase64)
              && (o.pub.payload.cutPaper == 1 <==> cut) && (o.pub.payload.cutPaper == 0 <==> !cut)
              && o.pub.payload.ticketId == "desk-" + Decimal(stamp)
  {
    Publish(t, ImagePayload(pngBase64, stamp, cut), net)
  }

  /** What `print_master` returned (or raised) and which transports it used. */
  datatype Delivery = Delivery(status: Result<string, EncodeError>, lan: LanOutcome, cloud: Option<CloudOutcome>)

  /**
   * `print_master(img, cut)`: the network printer first; the broker only
   * when the printer was not reached; a failure string when neither
   * delivered. An encoding overflow on the network path is not an OSError
   * and escapes without trying the broker.
   */
  function PrintMaster(t: Transport, img: Bitmap, pngBase64: string, stamp: nat, cut: bool, net: Network): (d: Delivery)
    ensures d.lan == SendLanImage(t, img, cut, net)
    ensures d.lan.Delivered? ==> d.status == Success(StatusLan) && d.cloud == None
    ensures d.lan.EncodeRaised? ==> d.status.Failure? && d.cloud == None
    ensures !d.lan.Delivered? && !d.lan.EncodeRaised? ==>
              d.cloud == Some(SendMqttImage(t, pngBase64, stamp, cut, net))
    ensures d.status == Success(StatusCloud) <==> d.cloud.Some? && d.cloud.value.Published?
    ensures d.status == Success(StatusFailed) <==>
              !d.lan.Delivered? && !d.lan.EncodeRaised? && !d.cloud.value.Published?
    ensures d.status.Success? ==> d.status.value in {StatusLan, StatusCloud, StatusFailed}
  {
    var lan := SendLanImage(t, img, cut, net);
    match LanResult(lan)
    case Failure(e) => Delivery(Failure(e), lan, None)
    case Success(true) => Delivery(Success(StatusLan), lan, None)
    case Success(false) =>
      var cloud := SendMqttImage(t, pngBase64, stamp, cut, net);
      if cloud.Published? then Delivery(Success(StatusCloud), lan, Some(cloud))
      else Delivery(Success(StatusFailed), lan, Some(cloud))
  }

  /** The 1x1 image `Image.new("1", (1, 1))` the cut command sends: one black pixel, packed as 0x00. */
  const CutImage: Bitmap := Bitmap(1, 1, [0x00])

  /** What `send_manual_cut` returned and which transports it used. */
  datatype CutDelivery = CutDelivery(ok: bool, lan: LanOutcome, cloud: Option<CloudOutcome>)

  /**
   * `send_manual_cut()`: the network printer with the 1x1 image and a cut
   * first; otherwise a cut-only command through the broker, where every
   * failure is caught.
   */
  function SendManualCut(t: Transport, net: Network): (d: CutDelivery)
    ensures d.lan == SendLanImage(t, CutImage, true, net) && !d.lan.EncodeRaised?
    ensures d.lan.Delivered? ==> d.ok && d.cloud == None
    ensures !d.lan.Delivered? ==> d.cloud == Some(Publish(t, CutOnlyPayload, net))
    ensures d.ok <==> d.lan.Delivered? || d.cloud.value.Published?
  {
    var lan := SendLanImage(t, CutImage, true, net);
    match LanResult(lan)
    case Success(true) => CutDelivery(true, lan, None)
    case _ =>
      var cloud := Publish(t, CutOnlyPayload, net);
      CutDelivery(cloud.Published?, lan, Some(cloud))
  }

  // ---------------------------------------------------------------------
  // Properties of the dispatcher
  // ---------------------------------------------------------------------

  /** With neither a printer address nor a broker host, printing fails without touching the network. */
  lemma NothingConfiguredFails(t: Transport, img: Bitmap, pngBase64: string, stamp: nat, cut: bool, net: Network)
    requires t.printerIp == "" && t.mqttHost == ""
    ensures PrintMaster(t, img, pngBase64, stamp, cut, net) == Delivery(Success(StatusFailed), NoAddress, Some(NoHost))
  {
  }

  /** An unreachable printer with a working broker gives the cloud status, whatever the image. */
  lemma UnreachablePrinterFallsBackToCloud(t: Transport, img: Bitmap, pngBase64: string, stamp: nat, cut: bool, net: Network)
    requires t.printerIp != "" && !net.lanConnects
    requires t.mqttHost != "" && net.mqttInstalled && net.brokerAccepts
    ensures var d := PrintMaster(t, img, pngBase64, stamp, cut, net);
            d.status == Success(StatusCloud) && d.lan == ConnectFailed
            && d.cloud == Some(Published(PublicationOf(t, ImagePayload(pngBase64, stamp, cut))))
  {
  }

  /** What reaches the printer is `ESC @`, the encoded raster, four feeds and the cut when asked for. */
  lemma DeliveredStreamIsFramedRaster(t: Transport, img: Bitmap, cut: bool, net: Network)
    requires SendLanImage(t, img, cut, net).Delivered?
    ensures Encodable(img)
    ensures var s := SendLanImage(t, img, cut, net).stream;
            s == LanStream(Raster(img).value, cut)
            && ParseLanStream(s) == Some((Raster(img).value, cut))
            && ParseRaster(Raster(img).value) == Some(RasterImage(WidthBytes(img.width), img.height, img.data))
  {
    ParseLanStreamOfLanStream(Raster(img).value, cut);
    ParseRasterOfRaster(img);
  }

  /**
   * After loading, a transport setting the file does not hold reads as the
   * built-in default, which agrees with the `.get` fallback: the printer and
   * broker are unconfigured, the port is 8883, the topic is the default one
   * and TLS is on.
   */
  lemma LoadedTransportDefaults(f: Settings.SettingsFile)
    ensures var t := TransportOf(Settings.Loaded(f));
            var stored := if f.Stored? then f.content.Keys else {};
            && ("printer_ip" !in stored ==> t.printerIp == "")
            && ("mqtt_host" !in stored ==> t.mqttHost == "")
            && ("mqtt_port" !in stored ==> t.mqttPort == DefaultMqttPort)
            && ("mqtt_topic" !in stored ==> t.mqttTopic == DefaultTopic)
            && ("mqtt_use_tls" !in stored ==> t.mqttUseTls)
  {
    var d := Settings.Loaded(f);
    assert "mqtt_port" in Settings.DefaultSettings && "mqtt_topic" in Settings.DefaultSettings;
    assert "printer_ip" in Settings.DefaultSettings && "mqtt_host" in Settings.DefaultSettings;
    assert "mqtt_use_tls" in Settings.DefaultSettings;
  }

  /** The image payload carries the cut flag as 1 or 0 and a ticket id made of "desk-" and the time stamp. */
  lemma ImagePayloadFields(pngBase64: string, stamp: nat, cut: bool)
    ensures var p := ImagePayload(pngBase64, stamp, cut);
            && (p.cutPaper == 1 <==> cut) && (p.cutPaper == 0 <==> !cut)
            && p.ticketId[..5] == "desk-" && ParseDecimal(p.ticketId[5..]) == stamp
  {
    var p := ImagePayload(pngBase64, stamp, cut);
    assert p.ticketId[5..] == Decimal(stamp);
    DecimalRoundTrip(stamp);
  }

  /** When the printer is not reached and no broker host is set, the cut command reports failure. */
  lemma ManualCutWithoutHostFails(t: Transport, net: Network)
    requires t.printerIp == "" || !net.lanConnects || !net.lanAccepts
    requires t.mqttHost == ""
    ensures var d := SendManualCut(t, net);
            !d.ok && d.cloud == Some(NoHost)
  {
  }

  /** The bytes of the cut command on the network: initialise, a one-dot raster, feeds and the cut. */
  lemma ManualCutStream(t: Transport, net: Network)
    requires t.printerIp != "" && net.lanConnects
    ensures SendLanImage(t, CutImage, true, net).stream ==
            [0x1B, 0x40, 0x1D, 0x76, 0x30, 0x00, 0x01, 0x00, 0x01, 0x00, 0xFF,
             0x0A, 0x0A, 0x0A, 0x0A, 0x1D, 0x56, 0x00]
  {
    assert WidthBytes(1) == 1;
    assert LittleEndian16(1) == [0x01, 0x00];
    assert Inverted([0x00]) == [0xFF];
    var expected: seq<byte> := [0x1B, 0x40, 0x1D, 0x76, 0x30, 0x00, 0x01, 0x00, 0x01, 0x00, 0xFF,
                                0x0A, 0x0A, 0x0A, 0x0A, 0x1D, 0x56, 0x00];
    assert LanStream(Raster(CutImage).value, true) == expected;
  }

  // ---------------------------------------------------------------------
  // Decimal text of the ticket id's time stamp
  // ---------------------------------------------------------------------

  predicate IsDigits(s: string) {
    forall i :: 0 <= i < |s| ==> '0' <= s[i] <= '9'
  }

  /** `str(n)` for a natural number. */
  function Decimal(n: nat): (s: string)
    ensures |s| >= 1 && IsDigits(s)
    ensures s[0] == '0' ==> n == 0
  {
    if n < 10 then [('0' as int + n) as char]
    else Decimal(n / 10) + [('0' as int + n % 10) as char]
  }

  /** `int(s)` for a string of decimal digits. */
  function ParseDecimal(s: string): nat
    requires IsDigits(s)
  {
    if s == [] then 0 else 10 * ParseDecimal(s[..|s| - 1]) + (s[|s| - 1] as int - '0' as int)
  }

  lemma {:induction false} DecimalRoundTrip(n: nat)
    ensures ParseDecimal(Decimal(n)) == n
  {
    var s := Decimal(n);
    if n >= 10 {
      DecimalRoundTrip(n / 10);
      assert s[..|s| - 1] == Decimal(n / 10);
    }
  }
}

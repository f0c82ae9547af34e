/** The applications of a node, node/src/node_app.c. zlib is a parameter: a pair of functions on messages. */
module NodeApp {
  import opened Settings
  import opened Packets

  /** What compress_message and decompress_message leave in the 150-byte message array. */
  datatype Codec = Codec(deflate: Message -> Message, inflate: Message -> Message)

  /** node_app_setup_delivery: compress, unless there is nothing to compress. The app CRC stays. */
  function SetupDelivery(codec: Codec, app: AppPayload): AppPayload {
    if app.message != [] then app.(message := codec.deflate(app.message)) else app
  }

  function Decompressed(codec: Codec, app: AppPayload): AppPayload {
    app.(message := codec.inflate(app.message))
  }

  /** The message, decompressed, is the one its CRC was computed over. */
  predicate Genuine(codec: Codec, app: AppPayload) {
    app.message == [] || AppCrc(Decompressed(codec, app)) == app.crc
  }

  /** Somebody on a node is there to take the request. */
  predicate Addressed(app: AppPayload) {
    || (app.reqType == APP_REQUEST_DELIVERY && app.addrTo < APPS_COUNT)
    || app.reqType == APP_REQUEST_BROADCAST
    || app.reqType == APP_REQUEST_UNICAST
  }

  /** The result of node_app_handle_request. */
  predicate Accepts(codec: Codec, app: AppPayload) {
    Addressed(app) && Genuine(codec, app)
  }

  /** Compression that loses nothing keeps the server's app CRC checkable at the far end. */
  lemma DeliveryStaysGenuine(codec: Codec, app: AppPayload)
    requires app.crc == AppCrc(app)
    requires codec.inflate(codec.deflate(app.message)) == app.message
    ensures Genuine(codec, SetupDelivery(codec, app))
    ensures Addressed(SetupDelivery(codec, app)) <==> Addressed(app)
  {
    hide AppCrc;
    if app.message != [] {
      var sent := SetupDelivery(codec, app);
      assert AppBytes(Decompressed(codec, sent)) == AppBytes(app);
      SameBytesSameCrc(Decompressed(codec, sent), app);
    }
  }

  lemma SameBytesSameCrc(a: AppPayload, b: AppPayload)
    requires AppBytes(a) == AppBytes(b)
    ensures AppCrc(a) == AppCrc(b)
  {
  }

  datatype App = App(nodeAddr: uint8, appAddr: uint8)

  ghost predicate DefaultApps(apps: seq<App>, nodeAddr: uint8) {
    |apps| == APPS_COUNT && forall i :: 0 <= i < APPS_COUNT ==> apps[i] == App(nodeAddr, i)
  }

  method FillDefault(apps: array<App>, nodeAddr: uint8)
    requires apps.Length == APPS_COUNT
    modifies apps
    ensures DefaultApps(apps[..], nodeAddr)
  {
    var i: uint8 := 0;
    while i < APPS_COUNT
      invariant i <= APPS_COUNT
      invariant forall k :: 0 <= k < i ==> apps[k] == App(nodeAddr, k)
    {
      apps[i] := App(nodeAddr, i);
      i := i + 1;
    }
  }

  /** node_app_handle_request. */
  method HandleRequest(apps: array<App>, app: AppPayload, codec: Codec, ghost nodeAddr: uint8) returns (ok: bool)
    requires DefaultApps(apps[..], nodeAddr)
    ensures ok == Accepts(codec, app)
  {
    hide AppCrc;
    if app.reqType == APP_REQUEST_DELIVERY {
      var i := 0;
      while i < APPS_COUNT
        invariant 0 <= i <= APPS_COUNT && i <= app.addrTo
      {
        assert apps[i] == apps[..][i];
        if apps[i].appAddr == app.addrTo {
          if app.message != [] {
            var plain := Decompressed(codec, app);
            if AppCrc(plain) != plain.crc {
              return false;
            }
          }
          return true;
        }
        i := i + 1;
      }
    } else if app.reqType == APP_REQUEST_BROADCAST || app.reqType == APP_REQUEST_UNICAST {
      if app.message != [] {
        var plain := Decompressed(codec, app);
        if AppCrc(plain) != plain.crc {
          return false;
        }
      }
      return true;
    }
    ok := false;
  }
}

/**
  Two transformations of WireGuard configuration texts: keeping the lines with certain keys, and translating a peer
  configuration into the file that a device loads. Hexadecimal and base64 are one given function on key texts.
 */
module WireguardText {
  import opened GoValues
  import opened Text

  datatype Result<T> = Ok(value: T) | InvalidLine(line: string) | InvalidKey

  // ---------- Lines ----------

  /** A line without `=` is allowed only when it is empty. */
  predicate IsBad(line: string) {
    line != "" && Cut(line, '=').Missing?
  }

  predicate HasKey(line: string, key: string) {
    var cut := Cut(line, '=');
    cut.Found? && cut.before == key
  }

  function FirstBad(lines: seq<string>): Option<string> {
    if |lines| == 0 then None
    else
      var before := FirstBad(lines[..|lines| - 1]);
      var last := lines[|lines| - 1];
      if before.Some? then before else if IsBad(last) then Some(last) else None
  }

  predicate IsKept(line: string, keys: seq<string>) {
    exists key :: key in keys && HasKey(line, key)
  }

  function Kept(lines: seq<string>, keys: seq<string>): seq<string> {
    if |lines| == 0 then []
    else
      var last := lines[|lines| - 1];
      Kept(lines[..|lines| - 1], keys) + if IsKept(last, keys) then [last] else []
  }

  function Filter(config: string, keys: seq<string>): Result<string> {
    var lines := Split(config, '\n');
    var bad := FirstBad(lines);
    if bad.Some? then InvalidLine(bad.value) else Ok(Join(Kept(lines, keys), '\n'))
  }

  /** `filterConfigToKeys` */
  method FilterConfigToKeys(config: string, keys: seq<string>) returns (r: Result<string>)
    ensures r == Filter(config, keys)
  {
    var all := Split(config, '\n');
    var lines: seq<string> := [];
    for n := 0 to |all|
      invariant FirstBad(all[..n]) == None && lines == Kept(all[..n], keys)
    {
      var line := all[n];
      assert all[..n + 1][..n] == all[..n];
      var cut := Cut(line, '=');
      if cut.Missing? {
        if line == "" {
          continue;
        }
        FirstBadStays(all, n);
        return InvalidLine(line);
      }
      var k := 0;
      while k < |keys| && cut.before != keys[k]
        invariant 0 <= k <= |keys| && forall j :: 0 <= j < k ==> keys[j] != cut.before
      {
        k := k + 1;
      }
      if k < |keys| {
        assert keys[k] in keys && HasKey(line, keys[k]);
        lines := lines + [line];
      }
    }
    assert all[..|all|] == all;
    return Ok(Join(lines, '\n'));
  }

  lemma {:induction false} FirstBadStays(lines: seq<string>, n: nat)
    requires n < |lines| && FirstBad(lines[..n]) == None && IsBad(lines[n])
    ensures FirstBad(lines) == Some(lines[n])
    decreases |lines|
  {
    var init := lines[..|lines| - 1];
    if n < |init| {
      assert init[..n] == lines[..n];
      FirstBadStays(init, n);
    }
  }

  // ---------- What is refused and what is kept ----------

  lemma CutExactly(line: string, key: string, value: string)
    ensures Cut(line, '=') == Found(key, value) <==> Free(key, '=') && line == key + "=" + value
    ensures Cut(line, '=').Missing? <==> Free(line, '=')
  {
    if Free(key, '=') && line == key + "=" + value {
      CutAtFirst(key, value);
    }
  }

  lemma {:induction false} CutAtFirst(key: string, value: string)
    requires Free(key, '=')
    ensures Cut(key + "=" + value, '=') == Found(key, value)
  {
    var s := key + "=" + value;
    if key == "" {
      assert s[0] == '=' && s[1..] == value;
    } else {
      CutAtFirst(key[1..], value);
      assert s[1..] == key[1..] + "=" + value && [s[0]] + key[1..] == key;
    }
  }

  /** Refused is the first line that is not empty and has no equals sign. */
  lemma {:induction false} FirstBadExactly(lines: seq<string>)
    ensures match FirstBad(lines)
            case None => forall j :: 0 <= j < |lines| ==> lines[j] == "" || !Free(lines[j], '=')
            case Some(line) =>
              exists n :: 0 <= n < |lines| && lines[n] == line && line != "" && Free(line, '=')
                && forall j :: 0 <= j < n ==> lines[j] == "" || !Free(lines[j], '=')
  {
    if |lines| > 0 {
      var init, last := lines[..|lines| - 1], lines[|lines| - 1];
      FirstBadExactly(init);
      CutExactly(last, "", "");
      if FirstBad(init).Some? {
        var n :| 0 <= n < |init| && init[n] == FirstBad(init).value
          && forall j :: 0 <= j < n ==> init[j] == "" || !Free(init[j], '=');
        assert lines[n] == init[n] && forall j :: 0 <= j < n ==> lines[j] == init[j];
      } else {
        assert forall j :: 0 <= j < |init| ==> lines[j] == init[j];
      }
    }
  }

  /** Kept is a line that starts with a wanted key and an equals sign. */
  lemma KeptExactly(line: string, keys: seq<string>)
    ensures IsKept(line, keys) <==> exists key, value :: key in keys && Free(key, '=') && line == key + "=" + value
  {
    if IsKept(line, keys) {
      var cut := Cut(line, '=');
      assert line == cut.before + "=" + cut.after;
    }
    forall key, value | key in keys && Free(key, '=') && line == key + "=" + value ensures IsKept(line, keys) {
      CutExactly(line, key, value);
      assert HasKey(line, key);
    }
  }

  lemma OneMoreLine(lines: seq<string>, last: string, keys: seq<string>)
    ensures Kept([last], keys) == if IsKept(last, keys) then [last] else []
    ensures Kept(lines + [last], keys) == Kept(lines, keys) + Kept([last], keys)
  {
    assert [last][..0] == [] && (lines + [last])[..|lines|] == lines;
  }

  lemma Regrouped(a: seq<string>, b: seq<string>, c: seq<string>)
    ensures a + (b + c) == (a + b) + c
  {
  }

  /** Lines are kept or dropped one by one and stay in order. */
  lemma {:induction false} KeptInOrder(a: seq<string>, b: seq<string>, keys: seq<string>)
    ensures Kept(a + b, keys) == Kept(a, keys) + Kept(b, keys)
  {
    if |b| == 0 {
      assert a + b == a;
    } else {
      var init, last := b[..|b| - 1], b[|b| - 1];
      assert b == init + [last];
      Regrouped(a, init, [last]);
      KeptInOrder(a, init, keys);
      OneMoreLine(init, last, keys);
      OneMoreLine(a + init, last, keys);
      Regrouped(Kept(a, keys), Kept(init, keys), Kept([last], keys));
    }
  }

  // ---------- Filtering twice ----------

  lemma {:induction false} KeptLines(lines: seq<string>, keys: seq<string>, line: string)
    ensures line in Kept(lines, keys) <==> line in lines && IsKept(line, keys)
  {
    if |lines| > 0 {
      KeptLines(lines[..|lines| - 1], keys, line);
      assert lines == lines[..|lines| - 1] + [lines[|lines| - 1]];
    }
  }

  lemma {:induction false} AllKept(lines: seq<string>, keys: seq<string>)
    requires forall line :: line in lines ==> IsKept(line, keys)
    ensures Kept(lines, keys) == lines && FirstBad(lines) == None
  {
    if |lines| > 0 {
      AllKept(lines[..|lines| - 1], keys);
      assert lines == lines[..|lines| - 1] + [lines[|lines| - 1]];
      assert IsKept(lines[|lines| - 1], keys);
    }
  }

  /** The lines of a filtered text are the kept lines, or one empty line when nothing is kept. */
  lemma FilteredLines(config: string, keys: seq<string>)
    requires Filter(config, keys).Ok?
    ensures var kept := Kept(Split(config, '\n'), keys);
            Split(Filter(config, keys).value, '\n') == if kept == [] then [""] else kept
  {
    var lines := Split(config, '\n');
    var kept := Kept(lines, keys);
    if kept != [] {
      forall i | 0 <= i < |kept| ensures Free(kept[i], '\n') {
        KeptLines(lines, keys, kept[i]);
      }
      SplitOfJoin(kept, '\n');
    }
  }

  lemma EmptyText(keys: seq<string>)
    ensures Kept([""], keys) == [] && FirstBad([""]) == None && SettingsOf([""]) == SettingsOf([])
  {
  }

  /** A filtered text is valid, and filtering it again changes nothing. */
  lemma FilterIdempotent(config: string, keys: seq<string>)
    requires Filter(config, keys).Ok?
    ensures Filter(Filter(config, keys).value, keys) == Filter(config, keys)
  {
    var lines := Split(config, '\n');
    var kept := Kept(lines, keys);
    FilteredLines(config, keys);
    if kept == [] {
      EmptyText(keys);
    } else {
      forall line | line in kept ensures IsKept(line, keys) {
        KeptLines(lines, keys, line);
      }
      AllKept(kept, keys);
    }
  }

  // ---------- Translating ----------

  datatype Settings = Settings(privateKey: string, publicKey: string, endpoint: string, listenPort: string)

  function SetLine(s: Settings, line: string): Settings {
    match Cut(line, '=')
    case Missing => s
    case Found(k, v) =>
      if k == "private_key" then s.(privateKey := v)
      else if k == "public_key" then s.(publicKey := v)
      else if k == "endpoint" then s.(endpoint := v)
      else if k == "listen_port" then s.(listenPort := v)
      else s
  }

  function SettingsOf(lines: seq<string>): Settings {
    if |lines| == 0 then Settings("", "", "", "")
    else SetLine(SettingsOf(lines[..|lines| - 1]), lines[|lines| - 1])
  }

  /** The value of the last line with a key, or nothing. */
  function LastValue(lines: seq<string>, key: string): string {
    if |lines| == 0 then ""
    else
      var cut := Cut(lines[|lines| - 1], '=');
      if cut.Found? && cut.before == key then cut.after else LastValue(lines[..|lines| - 1], key)
  }

  /** What the router puts into every file, and the conversion of a key. */
  datatype Setup = Setup(mtu: int, externalAddress: string, keyText: string -> Option<string>)

  function Render(setup: Setup, ip: string, privateKey: string, publicKey: string, endpoint: string): string {
    "[Interface]" + "\n"
    + ("Address = " + ip + "\n"
    + ("PrivateKey = " + privateKey + "\n"
    + ("MTU = " + PrintInt(setup.mtu) + "\n"
    + ("" + "\n"
    + ("[Peer]" + "\n"
    + ("PublicKey = " + publicKey + "\n"
    + ("AllowedIPs = 10.40.0.0/16" + "\n"
    + ("Endpoint = " + endpoint + "\n" + ""))))))))
  }

  function RenderSettings(setup: Setup, ip: string, s: Settings): Result<string> {
    var privateKey, publicKey := setup.keyText(s.privateKey), setup.keyText(s.publicKey);
    if privateKey.None? || publicKey.None? then InvalidKey
    else Ok(Render(setup, ip, privateKey.value, publicKey.value,
                   if s.listenPort == "" then s.endpoint else setup.externalAddress + ":" + s.listenPort))
  }

  function Translate(setup: Setup, ip: string, config: string): Result<string> {
    var lines := Split(config, '\n');
    var bad := FirstBad(lines);
    if bad.Some? then InvalidLine(bad.value) else RenderSettings(setup, ip, SettingsOf(lines))
  }

  /** `translateToDeviceConfig` */
  method TranslateToDeviceConfig(setup: Setup, ip: string, peerConfig: string) returns (r: Result<string>)
    ensures r == Translate(setup, ip, peerConfig)
  {
    var all := Split(peerConfig, '\n');
    var privateKey, publicKey, endpoint, listenPort := "", "", "", "";
    for n := 0 to |all|
      invariant FirstBad(all[..n]) == None
      invariant SettingsOf(all[..n]) == Settings(privateKey, publicKey, endpoint, listenPort)
    {
      var line := all[n];
      assert all[..n + 1][..n] == all[..n];
      match Cut(line, '=')
      case Missing =>
        if line != "" {
          FirstBadStays(all, n);
          return InvalidLine(line);
        }
      case Found(k, v) =>
        match k
        case "private_key" => privateKey := v;
        case "public_key" => publicKey := v;
        case "endpoint" => endpoint := v;
        case "listen_port" => listenPort := v;
        case _ =>
    }
    assert all[..|all|] == all;
    var privateText := setup.keyText(privateKey);
    if privateText.None? {
      return InvalidKey;
    }
    var publicText := setup.keyText(publicKey);
    if publicText.None? {
      return InvalidKey;
    }
    var target := endpoint;
    if listenPort != "" {
      target := setup.externalAddress + ":" + listenPort;
    }
    return Ok(Render(setup, ip, privateText.value, publicText.value, target));
  }

  // ---------- Translating a filtered text ----------

  /** Of repeated keys the last one counts. */
  lemma {:induction false} SettingsAreLastValues(lines: seq<string>)
    ensures SettingsOf(lines) == Settings(LastValue(lines, "private_key"), LastValue(lines, "public_key"),
                                          LastValue(lines, "endpoint"), LastValue(lines, "listen_port"))
  {
    if |lines| > 0 {
      SettingsAreLastValues(lines[..|lines| - 1]);
    }
  }

  /** Filtering keeps the last value of the keys it is given and forgets all others. */
  lemma {:induction false} KeptLastValue(lines: seq<string>, keys: seq<string>, key: string)
    ensures LastValue(Kept(lines, keys), key) == if key in keys then LastValue(lines, key) else ""
  {
    if |lines| > 0 {
      var init, last := lines[..|lines| - 1], lines[|lines| - 1];
      KeptLastValue(init, keys, key);
      assert HasKey(last, key) ==> (IsKept(last, keys) <==> key in keys);
      if IsKept(last, keys) {
        assert (Kept(init, keys) + [last])[..|Kept(init, keys)|] == Kept(init, keys);
      } else {
        assert Kept(lines, keys) == Kept(init, keys);
      }
    }
  }

  /** The value of a key is what follows it in the last line that starts with it, and nothing without such a line. */
  lemma {:induction false} LastValueExactly(lines: seq<string>, key: string)
    requires Free(key, '=')
    ensures (exists n, value :: LastLineOf(lines, key, n, value) && LastValue(lines, key) == value)
            || (LastValue(lines, key) == "" && forall n, value :: !LineOf(lines, key, n, value))
  {
    if |lines| > 0 {
      var init, last := lines[..|lines| - 1], lines[|lines| - 1];
      var cut := Cut(last, '=');
      if cut.Found? && cut.before == key {
        assert LastLineOf(lines, key, |init|, cut.after);
      } else {
        forall value ensures last != key + "=" + value {
          CutExactly(last, key, value);
        }
        LastValueExactly(init, key);
        if n, value :| LastLineOf(init, key, n, value) && LastValue(init, key) == value {
          EarlierLine(lines, key, n, value);
        } else {
          forall n, value ensures !LineOf(lines, key, n, value) {
            assert n < |init| ==> !LineOf(init, key, n, value);
          }
        }
      }
    }
  }

  predicate LineOf(lines: seq<string>, key: string, n: int, value: string) {
    0 <= n < |lines| && lines[n] == key + "=" + value
  }

  ghost predicate LastLineOf(lines: seq<string>, key: string, n: int, value: string) {
    LineOf(lines, key, n, value) && forall k, other :: LineOf(lines, key, k, other) ==> k <= n
  }

  lemma EarlierLine(lines: seq<string>, key: string, n: int, value: string)
    requires |lines| > 0 && LastLineOf(lines[..|lines| - 1], key, n, value)
    requires forall other :: lines[|lines| - 1] != key + "=" + other
    ensures LastLineOf(lines, key, n, value)
  {
    forall k, other | LineOf(lines, key, k, other) ensures k <= n {
      assert LineOf(lines[..|lines| - 1], key, k, other);
    }
  }

  /** The keys that `RestoreDevice` keeps. */
  const RESTORED_KEYS: seq<string> :=
    ["private_key", "public_key", "listen_port", "allowed_ip", "protocol_version", "allowed_ip"]

  /** So a restored device has these five kinds of lines and no others. */
  lemma RestoredLines(line: string)
    ensures IsKept(line, RESTORED_KEYS) <==>
            exists key, value ::
              && key in {"private_key", "public_key", "listen_port", "allowed_ip", "protocol_version"}
              && line == key + "=" + value
  {
    KeptExactly(line, RESTORED_KEYS);
    assert RESTORED_KEYS[0] == "private_key" && RESTORED_KEYS[1] == "public_key" && RESTORED_KEYS[2] == "listen_port"
        && RESTORED_KEYS[3] == "allowed_ip" && RESTORED_KEYS[4] == "protocol_version";
  }

  lemma KeptSettings(lines: seq<string>)
    ensures SettingsOf(Kept(lines, RESTORED_KEYS)) == SettingsOf(lines).(endpoint := "")
  {
    SettingsAreLastValues(lines);
    SettingsAreLastValues(Kept(lines, RESTORED_KEYS));
    assert RESTORED_KEYS[0] == "private_key" && RESTORED_KEYS[1] == "public_key" && RESTORED_KEYS[2] == "listen_port";
    KeptLastValue(lines, RESTORED_KEYS, "private_key");
    KeptLastValue(lines, RESTORED_KEYS, "public_key");
    KeptLastValue(lines, RESTORED_KEYS, "endpoint");
    KeptLastValue(lines, RESTORED_KEYS, "listen_port");
  }

  lemma FilteredSettings(config: string)
    requires Filter(config, RESTORED_KEYS).Ok?
    ensures var lines := Split(Filter(config, RESTORED_KEYS).value, '\n');
            FirstBad(lines) == None && SettingsOf(lines) == SettingsOf(Split(config, '\n')).(endpoint := "")
  {
    FilteredLines(config, RESTORED_KEYS);
    FilterIdempotent(config, RESTORED_KEYS);
    KeptSettings(Split(config, '\n'));
    EmptyText(RESTORED_KEYS);
  }

  /**
    The device file made from the filtered text is the one made from the original exactly when the keys do not decode
    anyway, or there is a port, or there is no endpoint to lose.
   */
  lemma FilteredTranslation(setup: Setup, ip: string, config: string)
    requires Filter(config, RESTORED_KEYS).Ok?
    ensures var s := SettingsOf(Split(config, '\n'));
            Translate(setup, ip, Filter(config, RESTORED_KEYS).value) == Translate(setup, ip, config) <==>
            setup.keyText(s.privateKey).None? || setup.keyText(s.publicKey).None?
            || s.listenPort != "" || s.endpoint == ""
  {
    FilteredSettings(config);
    var s := SettingsOf(Split(config, '\n'));
    if setup.keyText(s.privateKey).Some? && setup.keyText(s.publicKey).Some? && s.listenPort == "" {
      var a, b := setup.keyText(s.privateKey).value, setup.keyText(s.publicKey).value;
      RenderLength(setup, ip, a, b, s.endpoint);
      assert RenderSettings(setup, ip, s) == Ok(Render(setup, ip, a, b, s.endpoint));
      assert RenderSettings(setup, ip, s.(endpoint := "")) == Ok(Render(setup, ip, a, b, ""));
    }
  }

  lemma RenderLength(setup: Setup, ip: string, privateKey: string, publicKey: string, endpoint: string)
    ensures |Render(setup, ip, privateKey, publicKey, endpoint)| ==
            |Render(setup, ip, privateKey, publicKey, "")| + |endpoint|
  {
  }

  // ---------- The device file ----------

  lemma RenderIsLines(setup: Setup, ip: string, privateKey: string, publicKey: string, endpoint: string)
    ensures Render(setup, ip, privateKey, publicKey, endpoint) ==
            Join(["[Interface]", "Address = " + ip, "PrivateKey = " + privateKey, "MTU = " + PrintInt(setup.mtu), "",
                  "[Peer]", "PublicKey = " + publicKey, "AllowedIPs = 10.40.0.0/16",
                  "Endpoint = " + endpoint, ""], '\n')
  {
    JoinTen(["[Interface]", "Address = " + ip, "PrivateKey = " + privateKey, "MTU = " + PrintInt(setup.mtu), "",
             "[Peer]", "PublicKey = " + publicKey, "AllowedIPs = 10.40.0.0/16", "Endpoint = " + endpoint, ""]);
  }

  lemma JoinTen(lines: seq<string>)
    requires |lines| == 10
    ensures Join(lines, '\n') ==
            lines[0] + "\n" + (lines[1] + "\n" + (lines[2] + "\n" + (lines[3] + "\n" + (lines[4] + "\n"
            + (lines[5] + "\n" + (lines[6] + "\n" + (lines[7] + "\n" + (lines[8] + "\n" + lines[9]))))))))
  {
    JoinLastFive(lines);
    JoinFrom(lines, 4);
    JoinFrom(lines, 3);
    JoinFrom(lines, 2);
    JoinFrom(lines, 1);
    JoinFrom(lines, 0);
    assert lines[0..] == lines;
  }

  lemma JoinLastFive(lines: seq<string>)
    requires |lines| == 10
    ensures Join(lines[5..], '\n') ==
            lines[5] + "\n" + (lines[6] + "\n" + (lines[7] + "\n" + (lines[8] + "\n" + lines[9])))
  {
    JoinFrom(lines, 8);
    JoinFrom(lines, 7);
    JoinFrom(lines, 6);
    JoinFrom(lines, 5);
    assert lines[9..] == [lines[9]];
  }

  lemma JoinFrom(lines: seq<string>, n: nat)
    requires n + 1 < |lines|
    ensures Join(lines[n..], '\n') == lines[n] + "\n" + Join(lines[n + 1..], '\n')
  {
    assert lines[n..][1..] == lines[n + 1..];
  }

  /** The device file of a text, from the last values of its keys: the port replaces the endpoint when there is one. */
  lemma DeviceFile(setup: Setup, ip: string, config: string)
    ensures var lines := Split(config, '\n');
            var privateKey, publicKey :=
              setup.keyText(LastValue(lines, "private_key")), setup.keyText(LastValue(lines, "public_key"));
            var port := LastValue(lines, "listen_port");
            var endpoint := if port == "" then LastValue(lines, "endpoint") else setup.externalAddress + ":" + port;
            Translate(setup, ip, config) ==
            if FirstBad(lines).Some? then InvalidLine(FirstBad(lines).value)
            else if privateKey.None? || publicKey.None? then InvalidKey
            else Ok(Join(["[Interface]", "Address = " + ip, "PrivateKey = " + privateKey.value,
                          "MTU = " + PrintInt(setup.mtu), "",
                          "[Peer]", "PublicKey = " + publicKey.value, "AllowedIPs = 10.40.0.0/16",
                          "Endpoint = " + endpoint, ""], '\n'))
  {
    var lines := Split(config, '\n');
    SettingsAreLastValues(lines);
    var s := SettingsOf(lines);
    var privateKey, publicKey := setup.keyText(s.privateKey), setup.keyText(s.publicKey);
    if privateKey.Some? && publicKey.Some? {
      RenderIsLines(setup, ip, privateKey.value, publicKey.value,
                    if s.listenPort == "" then s.endpoint else setup.externalAddress + ":" + s.listenPort);
    }
  }
}

/**
 * Device discovery (src-tauri/src/services/adb_service.rs): parsing the
 * listing `adb devices -l` prints, and enriching ready devices with the
 * properties `adb shell getprop` reports.
 */
module Adb {
  import opened Wrappers
  import opened Text
  import opened Models
  import opened Errors
  import opened Exec

  // ---------------------------------------------------------------------------
  // `key:value` tokens
  // ---------------------------------------------------------------------------

  /** The key of a `key:value` token, if it has a colon. */
  function TagKey(token: string): Option<string> {
    match SplitOnce(token, ':')
    case None => None
    case Some((key, _)) => Some(key)
  }

  /** The value of a `key:value` token (empty if it has no colon). */
  function TagValue(token: string): string {
    match SplitOnce(token, ':')
    case None => []
    case Some((_, value)) => value
  }

  /**
   * What one token after the serial and the state does to the device being
   * built: a `model:` token sets the model, underscores turned into spaces, a
   * `manufacturer:` token sets the manufacturer, and nothing else changes.
   */
  function ApplyTag(d: Device, token: string): (r: Device)
    ensures r.serial == d.serial && r.state == d.state && r.androidVersion == d.androidVersion
    ensures r.model == (if TagKey(token) == Some("model") then Some(Replace(TagValue(token), "_", " ")) else d.model)
    ensures r.manufacturer == (if TagKey(token) == Some("manufacturer") then Some(TagValue(token)) else d.manufacturer)
  {
    match SplitOnce(token, ':')
    case None => d
    case Some((key, value)) =>
      if key == "model" then d.(model := Some(Replace(value, "_", " ")))
      else if key == "manufacturer" then d.(manufacturer := Some(value))
      else d
  }

  /** The tokens applied in order. */
  function ApplyTags(d: Device, tokens: seq<string>): Device
    decreases |tokens|
  {
    if tokens == [] then d
    else ApplyTag(ApplyTags(d, tokens[..|tokens| - 1]), tokens[|tokens| - 1])
  }

  /** Applying the first `k + 1` tokens is applying the first `k`, then token `k`. */
  lemma TagsStep(d: Device, tokens: seq<string>, k: nat)
    requires k < |tokens|
    ensures ApplyTags(d, tokens[..k + 1]) == ApplyTag(ApplyTags(d, tokens[..k]), tokens[k])
  {
    assert tokens[..k + 1][..k] == tokens[..k];
  }

  /** Tokens never change the serial, the state or the Android version. */
  lemma {:induction false} TagsKeepIdentity(d: Device, tokens: seq<string>)
    ensures ApplyTags(d, tokens).serial == d.serial
    ensures ApplyTags(d, tokens).state == d.state
    ensures ApplyTags(d, tokens).androidVersion == d.androidVersion
    decreases |tokens|
  {
    if tokens != [] {
      TagsKeepIdentity(d, tokens[..|tokens| - 1]);
    }
  }

  /** The last `model:` token decides the model, with underscores turned into spaces. */
  lemma {:induction false} ModelFromLastTag(d: Device, tokens: seq<string>, i: nat)
    requires i < |tokens| && TagKey(tokens[i]) == Some("model")
    requires forall j :: i < j < |tokens| ==> TagKey(tokens[j]) != Some("model")
    ensures ApplyTags(d, tokens).model == Some(Replace(TagValue(tokens[i]), "_", " "))
    decreases |tokens|
  {
    var init := tokens[..|tokens| - 1];
    if i < |tokens| - 1 {
      ModelFromLastTag(d, init, i);
    }
  }

  /** Without a `model:` token the model is left as it was. */
  lemma {:induction false} ModelWithoutTag(d: Device, tokens: seq<string>)
    requires forall j :: 0 <= j < |tokens| ==> TagKey(tokens[j]) != Some("model")
    ensures ApplyTags(d, tokens).model == d.model
    decreases |tokens|
  {
    if tokens != [] {
      ModelWithoutTag(d, tokens[..|tokens| - 1]);
    }
  }

  /** The last `manufacturer:` token decides the manufacturer, verbatim. */
  lemma {:induction false} ManufacturerFromLastTag(d: Device, tokens: seq<string>, i: nat)
    requires i < |tokens| && TagKey(tokens[i]) == Some("manufacturer")
    requires forall j :: i < j < |tokens| ==> TagKey(tokens[j]) != Some("manufacturer")
    ensures ApplyTags(d, tokens).manufacturer == Some(TagValue(tokens[i]))
    decreases |tokens|
  {
    var init := tokens[..|tokens| - 1];
    if i < |tokens| - 1 {
      ManufacturerFromLastTag(d, init, i);
    }
  }

  /** Without a `manufacturer:` token the manufacturer is left as it was. */
  lemma {:induction false} ManufacturerWithoutTag(d: Device, tokens: seq<string>)
    requires forall j :: 0 <= j < |tokens| ==> TagKey(tokens[j]) != Some("manufacturer")
    ensures ApplyTags(d, tokens).manufacturer == d.manufacturer
    decreases |tokens|
  {
    if tokens != [] {
      ManufacturerWithoutTag(d, tokens[..|tokens| - 1]);
    }
  }

  /** A model read from the listing never contains an underscore. */
  lemma {:induction false} ModelHasNoUnderscore(d: Device, tokens: seq<string>)
    requires d.model.Some? ==> '_' !in d.model.value
    ensures ApplyTags(d, tokens).model.Some? ==> '_' !in ApplyTags(d, tokens).model.value
    decreases |tokens|
  {
    if tokens != [] {
      ModelHasNoUnderscore(d, tokens[..|tokens| - 1]);
      match SplitOnce(tokens[|tokens| - 1], ':')
      case None =>
      case Some((_, value)) =>
        ReplaceCharRemoves(value, '_', " ");
    }
  }

  // ---------------------------------------------------------------------------
  // Lines
  // ---------------------------------------------------------------------------

  /**
   * The device one line of the listing describes, if any: its serial is a
   * word of the line, and it has no Android version yet.
   */
  function DeviceFromLine(line: string): (r: Option<Device>)
    ensures r.Some? ==> Listed(r.value)
  {
    var t := Trim(line);
    if t == [] || StartsWith(t, "List of devices") then None
    else
      var parts := SplitWhitespace(t);
      if |parts| < 2 then None
      else
        var d := NewDevice(parts[0], DeviceStateFrom(parts[1]));
        TagsKeepIdentity(d, parts[2..]);
        Some(ApplyTags(d, parts[2..]))
  }

  /**
   * A line describes a device exactly when, trimmed, it is not empty, is not
   * the header and has two fields.
   */
  lemma DeviceFromLineSome(line: string)
    ensures DeviceFromLine(line).Some? <==>
              Trim(line) != [] && !StartsWith(Trim(line), "List of devices") && |SplitWhitespace(Trim(line))| >= 2
  {
  }

  /** The device has the first field as serial, the state the second field names, and no Android version. */
  lemma DeviceFromLineFields(line: string)
    requires DeviceFromLine(line).Some?
    ensures var parts := SplitWhitespace(Trim(line));
            |parts| >= 2
            && DeviceFromLine(line).value.serial == parts[0]
            && DeviceFromLine(line).value.state == DeviceStateFrom(parts[1])
            && DeviceFromLine(line).value.androidVersion == None
  {
    var parts := SplitWhitespace(Trim(line));
    TagsKeepIdentity(NewDevice(parts[0], DeviceStateFrom(parts[1])), parts[2..]);
  }

  /** A device as the listing gives it: a serial of one word, and no Android version yet. */
  predicate Listed(d: Device) {
    d.serial != [] && NoWhitespace(d.serial) && d.androidVersion == None
  }

  /** The devices of some lines are all as the listing gives them. */
  lemma {:induction false} DevicesOfLines(ls: seq<string>)
    ensures forall d :: d in FilterMap(ls, DeviceFromLine) ==> Listed(d)
    decreases |ls|
  {
    if ls != [] {
      var init := ls[..|ls| - 1];
      var r := DeviceFromLine(ls[|ls| - 1]);
      DevicesOfLines(init);
      assert FilterMap(ls, DeviceFromLine) == FilterMap(init, DeviceFromLine) + (if r.Some? then [r.value] else []);
    }
  }

  /**
   * `parse_devices_output`: every line but the first. At most one device per
   * line after the first, each with a serial and no Android version.
   */
  function ParseDevices(output: string): (ds: seq<Device>)
    ensures ds == [] || |ds| < |Lines(output)|
    ensures forall d :: d in ds ==> Listed(d)
  {
    var ls := Lines(output);
    if ls == [] then []
    else
      DevicesOfLines(ls[1..]);
      FilterMap(ls[1..], DeviceFromLine)
  }

  /** Whatever the first line says, it yields no device. */
  lemma FirstLineIgnored(first: string, rest: string)
    requires '\n' !in first
    ensures ParseDevices(first + "\n" + rest) == FilterMap(Lines(rest), DeviceFromLine)
  {
    LinesCons(first, rest);
    assert Lines(first + "\n" + rest)[1..] == Lines(rest);
  }

  /** `parse_devices_output`, line by line. */
  method ParseDevicesOutput(output: string) returns (devices: seq<Device>)
    ensures devices == ParseDevices(output)
  {
    var ls := Lines(output);
    devices := [];
    if ls == [] {
      return;
    }
    var rest := ls[1..];
    var i := 0;
    while i < |rest|
      invariant 0 <= i <= |rest|
      invariant devices == FilterMap(rest[..i], DeviceFromLine)
    {
      var d := ParseLine(rest[i]);
      FilterMapStep(rest, i, DeviceFromLine, d);
      if d.Some? {
        devices := devices + [d.value];
      }
      i := i + 1;
    }
    assert rest[..i] == rest;
  }

  /** One `key:value` token of a device line: `model` (underscores read as spaces) or `manufacturer`. */
  method ApplyToken(device: Device, token: string) returns (d: Device)
    ensures d == ApplyTag(device, token)
  {
    d := device;
    match SplitOnce(token, ':') {
      case Some((key, value)) =>
        if key == "model" {
          d := d.(model := Some(Replace(value, "_", " ")));
        } else if key == "manufacturer" {
          d := d.(manufacturer := Some(value));
        }
      case None =>
    }
  }

  /** The body of the loop of `parse_devices_output`, token by token. */
  method ParseLine(raw: string) returns (r: Option<Device>)
    ensures r == DeviceFromLine(raw)
  {
    var line := Trim(raw);
    if line == [] || StartsWith(line, "List of devices") {
      return None;
    }
    var parts := SplitWhitespace(line);
    if |parts| < 2 {
      return None;
    }
    var device := ApplyTokens(NewDevice(parts[0], DeviceStateFrom(parts[1])), parts[2..]);
    r := Some(device);
  }

  /** The tokens after the state, applied one at a time from the left. */
  method ApplyTokens(device: Device, tokens: seq<string>) returns (d: Device)
    ensures d == ApplyTags(device, tokens)
  {
    d := device;
    for k := 0 to |tokens|
      invariant d == ApplyTags(device, tokens[..k])
    {
      TagsStep(device, tokens, k);
      d := ApplyToken(d, tokens[k]);
    }
    assert tokens[..|tokens|] == tokens;
  }

  // ---------------------------------------------------------------------------
  // Enrichment
  // ---------------------------------------------------------------------------

  /** What `getprop` reports, as a value when adb succeeded. */
  function Prop(getprop: (string, string) -> Output, serial: string, name: string): Option<string> {
    match RunAdbCommand(getprop(serial, name))
    case Ok(v) => Some(Trim(v))
    case Err(_) => None
  }

  /** The enrichment `list_devices` applies to one parsed device. */
  function Enriched(d: Device, getprop: (string, string) -> Output): (e: Device)
    ensures e.serial == d.serial && e.state == d.state
    ensures d.state != Ready ==> e == d
    ensures d.model.Some? ==> e.model == d.model
    ensures d.manufacturer.Some? ==> e.manufacturer == d.manufacturer
    ensures d.state == Ready && d.model.None? ==> e.model == Prop(getprop, d.serial, "ro.product.model")
    ensures d.state == Ready && d.manufacturer.None? ==>
              e.manufacturer == Prop(getprop, d.serial, "ro.product.manufacturer")
    ensures d.state == Ready ==>
              e.androidVersion == (if Prop(getprop, d.serial, "ro.build.version.release").Some?
                                   then Prop(getprop, d.serial, "ro.build.version.release")
                                   else d.androidVersion)
  {
    if d.state != Ready then d
    else
      var version := Prop(getprop, d.serial, "ro.build.version.release");
      var d1 := if version.Some? then d.(androidVersion := version) else d;
      var d2 := if d1.manufacturer.None? then d1.(manufacturer := Prop(getprop, d.serial, "ro.product.manufacturer")) else d1;
      if d2.model.None? then d2.(model := Prop(getprop, d.serial, "ro.product.model")) else d2
  }

  /**
   * `list_devices`: the listing's devices, in order, each ready one enriched
   * with its Android version, manufacturer and model where adb reports them.
   */
  method ListDevices(listing: Output, getprop: (string, string) -> Output) returns (r: Result<seq<Device>, AppError>)
    ensures RunAdbCommand(listing).Err? ==> r == Err(RunAdbCommand(listing).error)
    ensures RunAdbCommand(listing).Ok? ==>
              r.Ok? && |r.value| == |ParseDevices(listing.stdout)|
              && forall i :: 0 <= i < |r.value| ==> r.value[i] == Enriched(ParseDevices(listing.stdout)[i], getprop)
  {
    var out := RunAdbCommand(listing);
    if out.Err? {
      return Err(out.error);
    }
    var devices := ParseDevicesOutput(out.value);
    devices := EnrichDevices(devices, getprop);
    r := Ok(devices);
  }

  /** The loop of `list_devices` over the parsed devices, changing each in place. */
  method EnrichDevices(parsed: seq<Device>, getprop: (string, string) -> Output) returns (devices: seq<Device>)
    ensures |devices| == |parsed|
    ensures forall i :: 0 <= i < |devices| ==> devices[i] == Enriched(parsed[i], getprop)
  {
    devices := parsed;
    var i := 0;
    while i < |devices|
      invariant 0 <= i <= |devices| && |devices| == |parsed|
      invariant forall k :: 0 <= k < i ==> devices[k] == Enriched(parsed[k], getprop)
      invariant forall k :: i <= k < |devices| ==> devices[k] == parsed[k]
    {
      var device := EnrichDevice(devices[i], getprop);
      devices := devices[i := device];
      i := i + 1;
    }
  }

  /** The body of that loop: one device, its fields set one after another. */
  method EnrichDevice(parsed: Device, getprop: (string, string) -> Output) returns (device: Device)
    ensures device == Enriched(parsed, getprop)
  {
    device := parsed;
    if device.state == Ready {
      match RunAdbCommand(getprop(device.serial, "ro.build.version.release")) {
        case Ok(version) => device := device.(androidVersion := Some(Trim(version)));
        case Err(_) =>
      }
      if device.manufacturer.None? {
        match RunAdbCommand(getprop(device.serial, "ro.product.manufacturer")) {
          case Ok(mfr) => device := device.(manufacturer := Some(Trim(mfr)));
          case Err(_) =>
        }
      }
      if device.model.None? {
        match RunAdbCommand(getprop(device.serial, "ro.product.model")) {
          case Ok(model) => device := device.(model := Some(Trim(model)));
          case Err(_) =>
        }
      }
    }
  }

  // ---------------------------------------------------------------------------
  // The listing of the unit test
  // ---------------------------------------------------------------------------

  /** The fields of a line: a first word, a gap, then words separated by single spaces. */
  lemma {:induction false} FieldsAfterGap(first: string, sp: string, words: seq<string>)
    requires first != [] && NoWhitespace(first)
    requires sp != [] && forall i :: 0 <= i < |sp| ==> IsWhitespace(sp[i])
    requires forall i :: 0 <= i < |words| ==> words[i] != [] && NoWhitespace(words[i])
    ensures SplitWhitespace(first + sp + Join(words, " ")) == [first] + words
  {
    var rest := Join(words, " ");
    SplitWhitespaceCons(first, sp, rest);
    SplitWhitespaceSkip(sp, rest);
    SplitWhitespaceJoin(words);
    PrependEq(SplitWhitespace(first + sp + rest), SplitWhitespace(sp + rest), SplitWhitespace(rest), [first] + words);
  }

  /** The whitespace-free words of a listing line. */
  predicate Words(ws: seq<string>) {
    forall i :: 0 <= i < |ws| ==> ws[i] != [] && NoWhitespace(ws[i])
  }

  /** A gap of whitespace other than a line break. */
  predicate Gap(sp: string) {
    sp != [] && forall i :: 0 <= i < |sp| ==> IsWhitespace(sp[i]) && sp[i] != '\n'
  }

  /** A device line as adb prints it: the serial, a gap, the state word, then its tokens one space apart. */
  function DeviceLine(serial: string, sp: string, stateWord: string, tokens: seq<string>): string {
    serial + sp + Join([stateWord] + tokens, " ")
  }

  /** The words after the serial, and the whole device line, keep the shape adb gives them. */
  lemma DeviceLineShape(serial: string, sp: string, stateWord: string, tokens: seq<string>)
    requires Words([serial, stateWord] + tokens) && Gap(sp)
    ensures serial != [] && NoWhitespace(serial) && Words([stateWord] + tokens)
    ensures '\n' !in DeviceLine(serial, sp, stateWord, tokens)
    ensures Trim(DeviceLine(serial, sp, stateWord, tokens)) == DeviceLine(serial, sp, stateWord, tokens)
    ensures StripCr(DeviceLine(serial, sp, stateWord, tokens)) == DeviceLine(serial, sp, stateWord, tokens)
  {
    var words := [stateWord] + tokens;
    var all := [serial, stateWord] + tokens;
    forall i | 0 <= i < |words| ensures words[i] != [] && NoWhitespace(words[i]) {
      assert words[i] == all[i + 1];
    }
    assert serial == all[0];
    var rest := Join(words, " ");
    var line := serial + sp + rest;
    JoinWordsShape(words);
    assert '\n' !in serial by {
      forall k | 0 <= k < |serial| ensures serial[k] != '\n' {
        assert !IsWhitespace(serial[k]);
      }
    }
    assert line[0] == serial[0];
    assert line[|line| - 1] == rest[|rest| - 1];
    TrimUnchanged(line);
    assert line[|line| - 1] != '\r';
  }

  /**
   * A device line describes the device with that serial, the state its word
   * names, and whatever its tokens set.
   */
  lemma DeviceLineParsed(serial: string, sp: string, stateWord: string, tokens: seq<string>)
    requires Words([serial, stateWord] + tokens) && Gap(sp)
    requires !StartsWith(DeviceLine(serial, sp, stateWord, tokens), "List of devices")
    ensures '\n' !in DeviceLine(serial, sp, stateWord, tokens)
    ensures StripCr(DeviceLine(serial, sp, stateWord, tokens)) == DeviceLine(serial, sp, stateWord, tokens)
    ensures DeviceFromLine(DeviceLine(serial, sp, stateWord, tokens))
         == Some(ApplyTags(NewDevice(serial, DeviceStateFrom(stateWord)), tokens))
  {
    DeviceLineShape(serial, sp, stateWord, tokens);
    var words := [stateWord] + tokens;
    FieldsAfterGap(serial, sp, words);
    DeviceLineFields(DeviceLine(serial, sp, stateWord, tokens), serial, stateWord, tokens);
  }

  lemma DeviceLineFields(line: string, serial: string, stateWord: string, tokens: seq<string>)
    requires Trim(line) == line && line != [] && !StartsWith(line, "List of devices")
    requires SplitWhitespace(line) == [serial] + ([stateWord] + tokens)
    ensures DeviceFromLine(line) == Some(ApplyTags(NewDevice(serial, DeviceStateFrom(stateWord)), tokens))
  {
    HeadsAndRest(SplitWhitespace(line), serial, stateWord, tokens);
    DeviceFromTrimmed(line);
  }

  /** The two first elements and the rest of `[a] + ([b] + rest)`. */
  lemma HeadsAndRest<T>(xs: seq<T>, a: T, b: T, rest: seq<T>)
    requires xs == [a] + ([b] + rest)
    ensures |xs| >= 2 && xs[0] == a && xs[1] == b && xs[2..] == rest
  {
    assert xs[2..] == rest;
  }

  /** A trimmed line that is not the header and has two fields yields the device they and the rest describe. */
  lemma DeviceFromTrimmed(line: string)
    requires Trim(line) == line && line != [] && !StartsWith(line, "List of devices")
    requires |SplitWhitespace(line)| >= 2
    ensures var parts := SplitWhitespace(line);
            DeviceFromLine(line) == Some(ApplyTags(NewDevice(parts[0], DeviceStateFrom(parts[1])), parts[2..]))
  {
  }

  /** After the header, each line of a listing yields its device, in order. */
  lemma ListingParsed(header: string, lines: seq<string>)
    requires '\n' !in header
    requires forall i :: 0 <= i < |lines| ==> '\n' !in lines[i] && StripCr(lines[i]) == lines[i]
    ensures ParseDevices(header + "\n" + LinesText(lines)) == FilterMap(lines, DeviceFromLine)
  {
    FirstLineIgnored(header, LinesText(lines));
    LinesOfText(lines);
  }

  /** A header and three device lines. */
  lemma ListingOfThree(header: string, l1: string, l2: string, l3: string)
    requires '\n' !in header
    requires '\n' !in l1 && StripCr(l1) == l1
    requires '\n' !in l2 && StripCr(l2) == l2
    requires '\n' !in l3 && StripCr(l3) == l3
    ensures ParseDevices(header + "\n" + LinesText([l1, l2, l3])) == FilterMap([l1, l2, l3], DeviceFromLine)
  {
    var ls := [l1, l2, l3];
    forall k | 0 <= k < |ls| ensures '\n' !in ls[k] && StripCr(ls[k]) == ls[k] {
      if k == 0 { assert ls[k] == l1; } else if k == 1 { assert ls[k] == l2; } else { assert ls[k] == l3; }
    }
    ListingParsed(header, ls);
  }

  /** Three elements that each map to a value yield the three values, in order. */
  lemma FilterMapThree<T, U>(a: T, b: T, c: T, f: T -> Option<U>, x: U, y: U, z: U)
    requires f(a) == Some(x) && f(b) == Some(y) && f(c) == Some(z)
    ensures FilterMap([a, b, c], f) == [x, y, z]
  {
    var none: seq<T> := [];
    FilterMapCons(c, none, f);
    assert [c] + none == [c];
    assert FilterMap([c], f) == [z];
    FilterMapCons(b, [c], f);
    assert [b] + [c] == [b, c];
    assert FilterMap([b, c], f) == [y, z];
    FilterMapCons(a, [b, c], f);
    assert [a] + [b, c] == [a, b, c];
  }

  /** The tokens of a device whose last `model:` token names the model, and which names no manufacturer. */
  lemma ModelTagsApplied(d: Device, tokens: seq<string>, i: nat, model: string)
    requires d.model == None && d.manufacturer == None && d.androidVersion == None
    requires i < |tokens| && tokens[i] == "model:" + model
    requires forall j :: i < j < |tokens| ==> TagKey(tokens[j]) != Some("model")
    requires forall j :: 0 <= j < |tokens| ==> TagKey(tokens[j]) != Some("manufacturer")
    ensures ApplyTags(d, tokens) == Device(d.serial, d.state, Some(Replace(model, "_", " ")), None, None)
  {
    assert tokens[i] == "model" + [':'] + model;
    SplitOnceAt("model", model, ':');
    ModelFromLastTag(d, tokens, i);
    ManufacturerWithoutTag(d, tokens);
    TagsKeepIdentity(d, tokens);
  }

  /** A ready device whose last `model:` token names the model, and which names no manufacturer. */
  lemma ReadyLineParsed(serial: string, sp: string, tokens: seq<string>, i: nat, model: string)
    requires Words([serial, "device"] + tokens) && Gap(sp)
    requires !StartsWith(DeviceLine(serial, sp, "device", tokens), "List of devices")
    requires i < |tokens| && tokens[i] == "model:" + model
    requires forall j :: i < j < |tokens| ==> TagKey(tokens[j]) != Some("model")
    requires forall j :: 0 <= j < |tokens| ==> TagKey(tokens[j]) != Some("manufacturer")
    ensures DeviceFromLine(DeviceLine(serial, sp, "device", tokens))
         == Some(Device(serial, Ready, Some(Replace(model, "_", " ")), None, None))
  {
    DeviceLineParsed(serial, sp, "device", tokens);
    assert DeviceStateFrom("device") == Ready;
    ModelTagsApplied(NewDevice(serial, Ready), tokens, i, model);
  }

  /** A line with a serial and a state word only. */
  lemma BareLineParsed(serial: string, sp: string, stateWord: string)
    requires Words([serial, stateWord]) && Gap(sp)
    requires !StartsWith(DeviceLine(serial, sp, stateWord, []), "List of devices")
    ensures '\n' !in DeviceLine(serial, sp, stateWord, [])
    ensures StripCr(DeviceLine(serial, sp, stateWord, [])) == DeviceLine(serial, sp, stateWord, [])
    ensures DeviceFromLine(DeviceLine(serial, sp, stateWord, [])) == Some(NewDevice(serial, DeviceStateFrom(stateWord)))
  {
    var none: seq<string> := [];
    assert [serial, stateWord] + none == [serial, stateWord];
    DeviceLineParsed(serial, sp, stateWord, none);
  }

  /**
   * The shape of the listing in the unit test: a header; a ready device whose
   * tokens include a `model:` one (the last); an unauthorized device; an
   * offline device. It parses to those three devices, in order, the first
   * with its model's underscores turned into spaces.
   */
  lemma SampleListing(header: string, serial1: string, sp1: string, tokens: seq<string>, i: nat, model: string,
                      serial2: string, sp2: string, serial3: string, sp3: string)
    requires '\n' !in header
    requires Words([serial1, "device"] + tokens) && Gap(sp1)
    requires i < |tokens| && tokens[i] == "model:" + model
    requires forall j :: i < j < |tokens| ==> TagKey(tokens[j]) != Some("model")
    requires forall j :: 0 <= j < |tokens| ==> TagKey(tokens[j]) != Some("manufacturer")
    requires Words([serial2, "unauthorized"]) && Gap(sp2)
    requires Words([serial3, "offline"]) && Gap(sp3)
    requires !StartsWith(DeviceLine(serial1, sp1, "device", tokens), "List of devices")
    requires !StartsWith(DeviceLine(serial2, sp2, "unauthorized", []), "List of devices")
    requires !StartsWith(DeviceLine(serial3, sp3, "offline", []), "List of devices")
    ensures ParseDevices(header + "\n" + LinesText([DeviceLine(serial1, sp1, "device", tokens),
                                                     DeviceLine(serial2, sp2, "unauthorized", []),
                                                     DeviceLine(serial3, sp3, "offline", [])]))
         == [Device(serial1, Ready, Some(Replace(model, "_", " ")), None, None),
             NewDevice(serial2, Unauthorized),
             NewDevice(serial3, Offline)]
  {
    var l1 := DeviceLine(serial1, sp1, "device", tokens);
    var l2 := DeviceLine(serial2, sp2, "unauthorized", []);
    var l3 := DeviceLine(serial3, sp3, "offline", []);
    DeviceLineParsed(serial1, sp1, "device", tokens);
    ReadyLineParsed(serial1, sp1, tokens, i, model);
    BareLineParsed(serial2, sp2, "unauthorized");
    BareLineParsed(serial3, sp3, "offline");
    assert DeviceStateFrom("unauthorized") == Unauthorized;
    assert DeviceStateFrom("offline") == Offline;
    FilterMapThree(l1, l2, l3, DeviceFromLine, Device(serial1, Ready, Some(Replace(model, "_", " ")), None, None),
                 NewDevice(serial2, Unauthorized), NewDevice(serial3, Offline));
    ListingOfThree(header, l1, l2, l3);
  }
}

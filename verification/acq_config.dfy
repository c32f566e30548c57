/**
 The optional JSON configuration file of the U3 script (at-u3.py:166-217).
 Its `channels` list names the inputs and their calibration and replaces the
 input count; `outputfile` and the `loop` entries replace the command-line
 values. Inputs the file does not describe get default names and an identity
 calibration.
 */
module AcqConfig {
  import opened Basics
  import opened AcqOptions

  /** One element of the `channels` list; a key that is absent is `None`. */
  datatype ChannelEntry = ChannelEntry(name: Option<string>, tare: Option<real>, scale: Option<real>, offset: Option<real>)

  /** The `channels` value: a list of objects, or something the loop over it fails on. */
  datatype ChannelsSection = Entries(entries: seq<ChannelEntry>) | BadChannels

  /**
   The `loop` value: an object with optional `delay` and `count`, or a value
   on which reading the `delay` key fails, or one on which only reading the
   `count` key fails (a list that holds the string `count`, say).
   */
  datatype LoopSection = LoopKeys(delay: Option<int>, count: Option<int>) | BadDelay | BadCount

  /** The parsed file, reduced to the keys the script looks at. */
  datatype Document = Document(channels: Option<ChannelsSection>, outputFile: Option<string>, loop: Option<LoopSection>)

  /** What the sampling loop uses for one input: its label and `(raw - tare) * scale + offset`. */
  datatype Channel = Channel(name: string, tare: real, scale: real, offset: real)

  datatype Setup = Setup(settings: Settings, channels: seq<Channel>)

  /** The default label of input `i`: `input-` followed by `i` in decimal. */
  function InputName(i: nat): string {
    "input-" + FormatDecimal(i)
  }

  function DefaultChannel(i: nat): Channel {
    Channel(InputName(i), 0.0, 1.0, 0.0)
  }

  /** `range(0, n)` is empty for a count below one. */
  function DefaultChannels(n: int): (cs: seq<Channel>)
    ensures |cs| == if n < 0 then 0 else n
    ensures forall i :: 0 <= i < |cs| ==> cs[i] == DefaultChannel(i)
  {
    seq(if n < 0 then 0 else n, i requires 0 <= i => DefaultChannel(i))
  }

  /** An entry of the list, each missing key replaced by its default. */
  function FromEntry(i: nat, e: ChannelEntry): Channel {
    Channel(if e.name.Some? then e.name.value else InputName(i),
            if e.tare.Some? then e.tare.value else 0.0,
            if e.scale.Some? then e.scale.value else 1.0,
            if e.offset.Some? then e.offset.value else 0.0)
  }

  function Listed(entries: seq<ChannelEntry>): seq<Channel> {
    seq(|entries|, i requires 0 <= i < |entries| => FromEntry(i, entries[i]))
  }

  function NotFound(file: string): string {
    "config file '" + file + "' not found"
  }

  /** The message of `ShowErrorConfig`, word for word. */
  function BadSection(file: string, key: string): string {
    "the config file '" + file + "' has an an invalid '" + key + "' section"
  }

  /** The settings after the keys of the file have replaced the command-line values. */
  function Merge(s: Settings, doc: Document): Settings
    requires doc.channels != Some(BadChannels) && (doc.loop.Some? ==> doc.loop.value.LoopKeys?)
  {
    var loop := if doc.loop.Some? then doc.loop.value else LoopKeys(None, None);
    s.(inputCount := if doc.channels.Some? then |doc.channels.value.entries| else s.inputCount,
       outputFile := if doc.outputFile.Some? then doc.outputFile.value else s.outputFile,
       loopDelay := if loop.delay.Some? then loop.delay.value else s.loopDelay,
       loopCount := if loop.count.Some? then loop.count.value else s.loopCount)
  }

  /**
   Reading the configuration named on the command line, if any, through
   `load`, which stands for opening the file and parsing it as JSON (`None`
   when either fails); then filling in default channels when none were listed.
   */
  function Configure(s: Settings, load: string -> Option<Document>): (r: Outcome<Setup>)
    ensures r.Ok? || r.Failed?
    ensures s.configFile.None? ==> r == Ok(Setup(s, DefaultChannels(s.inputCount)))
    ensures r.Ok? ==> |r.value.channels| == if r.value.settings.inputCount < 0 then 0 else r.value.settings.inputCount
  {
    if s.configFile.None? then Ok(Setup(s, DefaultChannels(s.inputCount)))
    else
      var file := s.configFile.value;
      match load(file)
      case None => Failed(NotFound(file))
      case Some(doc) =>
        if doc.channels == Some(BadChannels) then Failed(BadSection(file, "channels"))
        else if doc.loop == Some(BadDelay) then Failed(BadSection(file, "loop.delay"))
        else if doc.loop == Some(BadCount) then Failed(BadSection(file, "loop.count"))
        else
          var listed := if doc.channels.Some? then Listed(doc.channels.value.entries) else [];
          var merged := Merge(s, doc);
          Ok(Setup(merged, if |listed| == 0 then DefaultChannels(merged.inputCount) else listed))
  }

  /** Default input names never clash. */
  lemma InputNamesDistinct(i: nat, j: nat)
    requires i != j
    ensures InputName(i) != InputName(j)
  {
    if InputName(i) == InputName(j) {
      assert FormatDecimal(i) == InputName(i)[6..];
      assert FormatDecimal(j) == InputName(j)[6..];
      FormatDecimalInjective(i, j);
    }
  }

  /**
   A file that loads and has well-formed sections gives: the listed channels
   with their defaults filled in, as many inputs as it lists, and each of its
   keys in place of the command-line value; a key it lacks keeps that value.
   */
  lemma ConfigureFromFile(s: Settings, load: string -> Option<Document>, doc: Document)
    requires s.configFile.Some? && load(s.configFile.value) == Some(doc)
    requires doc.channels != Some(BadChannels) && (doc.loop.Some? ==> doc.loop.value.LoopKeys?)
    ensures Configure(s, load).Ok?
    ensures var setup := Configure(s, load).value;
      && (doc.channels.Some? ==>
            (&& setup.settings.inputCount == |doc.channels.value.entries|
             && forall i :: 0 <= i < |setup.channels| ==> setup.channels[i] == FromEntry(i, doc.channels.value.entries[i])))
      && (doc.channels.None? ==>
            (&& setup.settings.inputCount == s.inputCount
             && forall i :: 0 <= i < |setup.channels| ==> setup.channels[i] == DefaultChannel(i)))
      && setup.settings.outputFile == (if doc.outputFile.Some? then doc.outputFile.value else s.outputFile)
      && setup.settings.loopDelay ==
           (if doc.loop.Some? && doc.loop.value.delay.Some? then doc.loop.value.delay.value else s.loopDelay)
      && setup.settings.loopCount ==
           (if doc.loop.Some? && doc.loop.value.count.Some? then doc.loop.value.count.value else s.loopCount)
      && setup.settings.configFile == s.configFile
  {
  }

  /** The configuration step fails exactly when the named file does not load or one of its sections is malformed. */
  lemma ConfigureFails(s: Settings, load: string -> Option<Document>)
    ensures Configure(s, load).Failed? <==>
      s.configFile.Some? &&
      (|| load(s.configFile.value).None?
       || load(s.configFile.value).value.channels == Some(BadChannels)
       || (load(s.configFile.value).value.loop.Some? && !load(s.configFile.value).value.loop.value.LoopKeys?))
    ensures Configure(s, load).Failed? && load(s.configFile.value).None? ==>
      Configure(s, load).message == NotFound(s.configFile.value)
    ensures s.configFile.Some? && load(s.configFile.value).Some? ==>
      var doc := load(s.configFile.value).value;
      && (doc.channels == Some(BadChannels) ==> Configure(s, load) == Failed(BadSection(s.configFile.value, "channels")))
      && (doc.channels != Some(BadChannels) && doc.loop == Some(BadDelay) ==>
            Configure(s, load) == Failed(BadSection(s.configFile.value, "loop.delay")))
      && (doc.channels != Some(BadChannels) && doc.loop == Some(BadCount) ==>
            Configure(s, load) == Failed(BadSection(s.configFile.value, "loop.count")))
  {
  }
}

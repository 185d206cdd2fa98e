/**
 * Laws of the `RunnableImage` overlay over whole chains of `with_*` calls: the image
 * and everything delegated to it never change, the last name/tag override wins, the last
 * write of an environment variable wins, and requested ports accumulate in call order.
 */
module OverlayLaws {
  import opened Wrappers
  import opened Numbers
  import opened BTreeMaps
  import opened ContainerStates
  import opened HostAliases
  import opened WaitConditions
  import opened Images

  /** One `with_*` call on an overlay, with its argument. */
  datatype Builder =
    | SetArgs(args: ImageArgs)
    | SetName(name: string)
    | SetTag(tag: string)
    | SetContainerName(containerName: string)
    | SetNetwork(network: string)
    | AddEnvVar(key: string, value: string)
    | AddHost(alias: string, host: Host)
    | AddVolume(orig: string, dest: string)
    | AddMappedPort(port: Port)
    | SetPrivileged(privileged: bool)
    | SetShmSize(bytes: u64)

  function Apply(ri: RunnableImage, b: Builder): RunnableImage {
    match b
    case SetArgs(args) => WithArgs(ri, args)
    case SetName(name) => WithName(ri, name)
    case SetTag(tag) => WithTag(ri, tag)
    case SetContainerName(name) => WithContainerName(ri, name)
    case SetNetwork(network) => WithNetwork(ri, network)
    case AddEnvVar(key, value) => WithEnvVar(ri, (key, value))
    case AddHost(alias, host) => WithHost(ri, alias, host)
    case AddVolume(orig, dest) => WithVolume(ri, (orig, dest))
    case AddMappedPort(port) => WithMappedPort(ri, port)
    case SetPrivileged(privileged) => WithPrivileged(ri, privileged)
    case SetShmSize(bytes) => WithShmSize(ri, bytes)
  }

  /** `ri.with_a(..).with_b(..)...`, the calls taken left to right. */
  function ApplyAll(ri: RunnableImage, bs: seq<Builder>): RunnableImage
    decreases |bs|
  {
    if bs == [] then ri else ApplyAll(Apply(ri, bs[0]), bs[1..])
  }

  /** The argument of the last `with_name` in the chain, if any. */
  function LastName(bs: seq<Builder>): Option<string> {
    if bs == [] then None
    else LastName(bs[1..]).Or(if bs[0].SetName? then Some(bs[0].name) else None)
  }

  /** The argument of the last `with_tag` in the chain, if any. */
  function LastTag(bs: seq<Builder>): Option<string> {
    if bs == [] then None
    else LastTag(bs[1..]).Or(if bs[0].SetTag? then Some(bs[0].tag) else None)
  }

  /** The value of the last `with_env_var` for `key` in the chain, if any. */
  function LastEnvWrite(bs: seq<Builder>, key: string): Option<string> {
    if bs == [] then None
    else LastEnvWrite(bs[1..], key).Or(if bs[0].AddEnvVar? && bs[0].key == key then Some(bs[0].value) else None)
  }

  /** The arguments of the chain's `with_mapped_port` calls, in call order. */
  function RequestedPorts(bs: seq<Builder>): seq<Port> {
    if bs == [] then []
    else (if bs[0].AddMappedPort? then [bs[0].port] else []) + RequestedPorts(bs[1..])
  }

  /** What one builder call does to the image, the overrides, the environment and the port requests. */
  lemma ApplyStep(ri: RunnableImage, b: Builder, key: string)
    ensures Apply(ri, b).image == ri.image
    ensures Apply(ri, b).imageName == (if b.SetName? then Some(b.name) else None).Or(ri.imageName)
    ensures Apply(ri, b).imageTag == (if b.SetTag? then Some(b.tag) else None).Or(ri.imageTag)
    ensures Get(Apply(ri, b).envVars, key)
         == (if b.AddEnvVar? && b.key == key then Some(b.value) else None).Or(Get(ri.envVars, key))
    ensures Apply(ri, b).ports == if b.AddMappedPort? then Some(ri.ports.GetOr([]) + [b.port]) else ri.ports
  {
  }

  /**
   * No builder touches the wrapped image, so the values delegated to it (readiness
   * conditions, entrypoint, exposed ports, post-start commands) are those of the image.
   */
  lemma {:induction false} ChainKeepsImage(ri: RunnableImage, bs: seq<Builder>)
    ensures ApplyAll(ri, bs).image == ri.image
    ensures ReadyConditions(ApplyAll(ri, bs)) == ri.image.readyConditions
    ensures Entrypoint(ApplyAll(ri, bs)) == ri.image.entrypoint
    ensures ExposePorts(ApplyAll(ri, bs)) == ri.image.exposePorts
    ensures forall cs :: ExecAfterStart(ApplyAll(ri, bs), cs) == ri.image.execAfterStart(cs)
    decreases |bs|
  {
    if bs != [] {
      ApplyStep(ri, bs[0], "");
      ChainKeepsImage(Apply(ri, bs[0]), bs[1..]);
    }
  }

  /** The last `with_name` and the last `with_tag` of a chain are the overrides in force. */
  lemma {:induction false} ChainNameAndTag(ri: RunnableImage, bs: seq<Builder>)
    ensures ApplyAll(ri, bs).imageName == LastName(bs).Or(ri.imageName)
    ensures ApplyAll(ri, bs).imageTag == LastTag(bs).Or(ri.imageTag)
    decreases |bs|
  {
    if bs != [] {
      ApplyStep(ri, bs[0], "");
      ChainNameAndTag(Apply(ri, bs[0]), bs[1..]);
    }
  }

  /** The descriptor after a chain: the last name override or the image's name, `:`, the same for the tag. */
  lemma ChainDescriptor(ri: RunnableImage, bs: seq<Builder>)
    ensures Descriptor(ApplyAll(ri, bs))
         == LastName(bs).Or(ri.imageName).GetOr(ri.image.name) + ":" + LastTag(bs).Or(ri.imageTag).GetOr(ri.image.tag)
  {
    ChainNameAndTag(ri, bs);
    ChainKeepsImage(ri, bs);
  }

  /** Across any chain, the value of an environment variable is the one its last `with_env_var` wrote. */
  lemma {:induction false} ChainEnvVarLastWriteWins(ri: RunnableImage, bs: seq<Builder>, key: string)
    ensures Get(ApplyAll(ri, bs).envVars, key) == LastEnvWrite(bs, key).Or(Get(ri.envVars, key))
    decreases |bs|
  {
    if bs != [] {
      ApplyStep(ri, bs[0], key);
      ChainEnvVarLastWriteWins(Apply(ri, bs[0]), bs[1..], key);
    }
  }

  /** The requested bindings after a chain are the earlier ones followed by every `with_mapped_port` argument, in order. */
  lemma {:induction false} ChainPortsAppend(ri: RunnableImage, bs: seq<Builder>)
    ensures ApplyAll(ri, bs).ports
         == if RequestedPorts(bs) == [] then ri.ports else Some(ri.ports.GetOr([]) + RequestedPorts(bs))
    decreases |bs|
  {
    if bs != [] {
      var ri' := Apply(ri, bs[0]);
      ApplyStep(ri, bs[0], "");
      ChainPortsAppend(ri', bs[1..]);
      if bs[0].AddMappedPort? {
        assert ri'.ports.GetOr([]) == ri.ports.GetOr([]) + [bs[0].port];
        assert RequestedPorts(bs) == [bs[0].port] + RequestedPorts(bs[1..]);
        assert RequestedPorts(bs[1..]) == [] ==> RequestedPorts(bs) == [bs[0].port];
        assert ri.ports.GetOr([]) + RequestedPorts(bs)
            == (ri.ports.GetOr([]) + [bs[0].port]) + RequestedPorts(bs[1..]);
      } else {
        assert RequestedPorts(bs) == RequestedPorts(bs[1..]);
      }
    }
  }

  // ---- the descriptor names the image unambiguously ----

  /** Splits an image reference at its last `:`, into the name (which may hold a registry port) and the tag. */
  function SplitAtLastColon(s: string): Option<(string, string)>
    decreases |s|
  {
    if s == [] then None
    else if s[|s| - 1] == ':' then Some((s[..|s| - 1], ""))
    else
      match SplitAtLastColon(s[..|s| - 1])
      case None => None
      case Some((name, tag)) => Some((name, tag + [s[|s| - 1]]))
  }

  lemma {:induction false} SplitJoined(name: string, tag: string)
    requires ':' !in tag
    ensures SplitAtLastColon(name + ":" + tag) == Some((name, tag))
  {
    var s := name + ":" + tag;
    if tag != [] {
      assert s[..|s| - 1] == name + ":" + tag[..|tag| - 1];
      SplitJoined(name, tag[..|tag| - 1]);
      assert tag[..|tag| - 1] + [tag[|tag| - 1]] == tag;
    } else {
      assert s[..|s| - 1] == name;
    }
  }

  /**
   * As long as the tag has no `:` (image tags cannot) the resolved name and tag can be
   * read back from the descriptor, even when the name holds a registry host and port.
   */
  lemma DescriptorRoundTrip(ri: RunnableImage)
    requires ':' !in ri.imageTag.GetOr(ri.image.tag)
    ensures SplitAtLastColon(Descriptor(ri)) == Some((ri.imageName.GetOr(ri.image.name), ri.imageTag.GetOr(ri.image.tag)))
  {
    SplitJoined(ri.imageName.GetOr(ri.image.name), ri.imageTag.GetOr(ri.image.tag));
  }

  // ---- defaults ----

  /** An overlay over an image that keeps the trait's defaults adds nothing to them. */
  lemma TraitDefaultsThroughOverlay(name: string, tag: string, conditions: seq<WaitFor>, args: ImageArgs, cs: ContainerState)
    ensures var ri := FromImageAndArgs(ImageWithDefaults(name, tag, conditions), args);
      && Descriptor(ri) == name + ":" + tag
      && ReadyConditions(ri) == conditions
      && Entrypoint(ri) == None
      && ExposePorts(ri) == []
      && ExecAfterStart(ri, cs) == []
      && EnvVars(ri) == [] && Volumes(ri) == [] && Hosts(ri) == []
  {
  }

  /** `RunnableImage::from(image).with_args(args)` and `RunnableImage::from((image, args))` are the same overlay. */
  lemma FromThenWithArgs(image: Image, args: ImageArgs)
    ensures WithArgs(FromImage(image), args) == FromImageAndArgs(image, args)
  {
  }
}

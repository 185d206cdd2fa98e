/**
 * The `Image` trait and the `RunnableImage` overlay (testcontainers/src/core/image.rs).
 *
 * An `Image` supplies the defaults of one kind of test dependency. A `RunnableImage`
 * wraps one image with its arguments and the user's overrides. Every `with_*` builder
 * takes the overlay by value and returns a new one, so the overlay is a datatype and each
 * builder a function; the getters resolve overrides against the image's defaults.
 */
module Images {
  import opened Wrappers
  import opened Numbers
  import opened BTreeMaps
  import opened WaitConditions
  import opened ExecCommands
  import opened ContainerStates
  import opened HostAliases

  /** A port binding requested by the user: host (`local`) port to container (`internal`) port. */
  datatype Port = Port(local: u16, internal: u16)

  /** `impl From<(u16, u16)> for Port`: the pair is `(local, internal)`. */
  function PortFrom(pair: (u16, u16)): (p: Port)
    ensures p.local == pair.0 && p.internal == pair.1
  {
    Port(pair.0, pair.1)
  }

  /**
   * What the `Image` trait's methods return for one image value. `envVars` and `volumes`
   * are the sequences the trait's iterators yield; `execAfterStart` maps the state of the
   * started container to the commands to run in it. `defaultArgs` is what the image's own
   * `I::Args::default()` yields through `ImageArgs::into_iterator`.
   */
  datatype Image = Image(
    name: string,
    tag: string,
    readyConditions: seq<WaitFor>,
    envVars: seq<(string, string)>,
    volumes: seq<(string, string)>,
    entrypoint: Option<string>,
    exposePorts: seq<u16>,
    execAfterStart: ContainerState -> seq<ExecCommand>,
    defaultArgs: ImageArgs)

  /**
   * An image that implements only the required methods and inherits the trait's defaults,
   * with `Args = ()`, whose default yields no strings.
   */
  function ImageWithDefaults(name: string, tag: string, readyConditions: seq<WaitFor>): (img: Image)
    ensures img.name == name && img.tag == tag && img.readyConditions == readyConditions
    ensures img.envVars == [] && img.volumes == []
    ensures img.entrypoint == None
    ensures img.exposePorts == []
    ensures forall cs :: img.execAfterStart(cs) == []
    ensures img.defaultArgs == []
  {
    Image(name, tag, readyConditions, [], [], None, [], cs => [], [])
  }

  /** `I::Args` as the strings its `ImageArgs::into_iterator` yields. */
  type ImageArgs = seq<string>

  datatype RunnableImage = RunnableImage(
    image: Image,
    imageArgs: ImageArgs,
    imageName: Option<string>,
    imageTag: Option<string>,
    containerName: Option<string>,
    network: Option<string>,
    envVars: BTreeMap<string>,
    hosts: BTreeMap<Host>,
    volumes: BTreeMap<string>,
    ports: Option<seq<Port>>,
    privileged: bool,
    shmSize: Option<u64>)

  /** The fields of an overlay a builder may set. */
  datatype Field =
    | ArgsField | NameField | TagField | ContainerNameField | NetworkField
    | EnvVarsField | HostsField | VolumesField | PortsField | PrivilegedField | ShmSizeField

  /** `b` agrees with `a` on the image and on every field other than `f`. */
  ghost predicate OnlyChanged(a: RunnableImage, b: RunnableImage, f: Field) {
    && b.image == a.image
    && (f != ArgsField ==> b.imageArgs == a.imageArgs)
    && (f != NameField ==> b.imageName == a.imageName)
    && (f != TagField ==> b.imageTag == a.imageTag)
    && (f != ContainerNameField ==> b.containerName == a.containerName)
    && (f != NetworkField ==> b.network == a.network)
    && (f != EnvVarsField ==> b.envVars == a.envVars)
    && (f != HostsField ==> b.hosts == a.hosts)
    && (f != VolumesField ==> b.volumes == a.volumes)
    && (f != PortsField ==> b.ports == a.ports)
    && (f != PrivilegedField ==> b.privileged == a.privileged)
    && (f != ShmSizeField ==> b.shmSize == a.shmSize)
  }

  // ---- construction ----

  /** `RunnableImage::from((image, args))`: no overrides at all, so everything resolves to the image. */
  function FromImageAndArgs(image: Image, args: ImageArgs): (r: RunnableImage)
    ensures r.image == image && r.imageArgs == args
    ensures r.imageName == None && r.imageTag == None
    ensures r.containerName == None && r.network == None
    ensures ToMap(r.envVars) == map[] && ToMap(r.hosts) == map[] && ToMap(r.volumes) == map[]
    ensures r.ports == None && !r.privileged && r.shmSize == None
    ensures Descriptor(r) == image.name + ":" + image.tag
    ensures EnvVars(r) == image.envVars && Volumes(r) == image.volumes && Hosts(r) == []
  {
    RunnableImage(image, args, None, None, None, None, [], [], [], None, false, None)
  }

  /** `RunnableImage::from(image)`: as above, with the image's own default arguments. */
  function FromImage(image: Image): (r: RunnableImage)
    ensures r.imageArgs == image.defaultArgs
    ensures OnlyChanged(FromImageAndArgs(image, []), r, ArgsField)
  {
    FromImageAndArgs(image, image.defaultArgs)
  }

  // ---- getters ----

  /**
   * `descriptor()`: `name:tag`, each part the override when there is one and the image's
   * value otherwise. It is never empty, whatever the name and tag.
   */
  function Descriptor(ri: RunnableImage): (d: string)
    ensures |d| > 0
    ensures d == (if ri.imageName.Some? then ri.imageName.value else ri.image.name)
              + ":" + (if ri.imageTag.Some? then ri.imageTag.value else ri.image.tag)
  {
    var name := ri.imageName.GetOr(ri.image.name);
    var tag := ri.imageTag.GetOr(ri.image.tag);
    name + ":" + tag
  }

  /**
   * `env_vars()`: the image's variables first, exactly as the image yields them, then the
   * overlay's map in ascending key order. Nothing is deduplicated across the two.
   */
  function EnvVars(ri: RunnableImage): (r: seq<(string, string)>)
    ensures |r| == |ri.image.envVars| + |ri.envVars|
    ensures r[..|ri.image.envVars|] == ri.image.envVars
    ensures Ordered(r[|ri.image.envVars|..]) && ToMap(r[|ri.image.envVars|..]) == ToMap(ri.envVars)
  {
    var r := ri.image.envVars + ri.envVars;
    assert r[|ri.image.envVars|..] == ri.envVars;
    r
  }

  /** `volumes()`: the image's volumes, then the overlay's map in ascending key order. */
  function Volumes(ri: RunnableImage): (r: seq<(string, string)>)
    ensures |r| == |ri.image.volumes| + |ri.volumes|
    ensures r[..|ri.image.volumes|] == ri.image.volumes
    ensures Ordered(r[|ri.image.volumes|..]) && ToMap(r[|ri.image.volumes|..]) == ToMap(ri.volumes)
  {
    var r := ri.image.volumes + ri.volumes;
    assert r[|ri.image.volumes|..] == ri.volumes;
    r
  }

  /** `hosts()`: the overlay's aliases only, in ascending key order; the image has none. */
  function Hosts(ri: RunnableImage): (r: seq<(string, Host)>)
    ensures Ordered(r) && ToMap(r) == ToMap(ri.hosts)
  {
    ri.hosts
  }

  /** `entrypoint()`, delegated to the image. */
  function Entrypoint(ri: RunnableImage): Option<string> {
    ri.image.entrypoint
  }

  /** `ready_conditions()`, delegated to the image. */
  function ReadyConditions(ri: RunnableImage): seq<WaitFor> {
    ri.image.readyConditions
  }

  /** `expose_ports()`, delegated to the image. */
  function ExposePorts(ri: RunnableImage): seq<u16> {
    ri.image.exposePorts
  }

  /** `exec_after_start(cs)`, delegated to the image. */
  function ExecAfterStart(ri: RunnableImage, cs: ContainerState): seq<ExecCommand> {
    ri.image.execAfterStart(cs)
  }

  // ---- builders: each returns the overlay with one field replaced ----

  function WithArgs(ri: RunnableImage, args: ImageArgs): (r: RunnableImage)
    ensures OnlyChanged(ri, r, ArgsField) && r.imageArgs == args
  {
    ri.(imageArgs := args)
  }

  /** `with_name`: overrides the image name (registry and owner included). */
  function WithName(ri: RunnableImage, name: string): (r: RunnableImage)
    ensures OnlyChanged(ri, r, NameField) && r.imageName == Some(name)
  {
    ri.(imageName := Some(name))
  }

  function WithTag(ri: RunnableImage, tag: string): (r: RunnableImage)
    ensures OnlyChanged(ri, r, TagField) && r.imageTag == Some(tag)
  {
    ri.(imageTag := Some(tag))
  }

  function WithContainerName(ri: RunnableImage, name: string): (r: RunnableImage)
    ensures OnlyChanged(ri, r, ContainerNameField) && r.containerName == Some(name)
  {
    ri.(containerName := Some(name))
  }

  function WithNetwork(ri: RunnableImage, network: string): (r: RunnableImage)
    ensures OnlyChanged(ri, r, NetworkField) && r.network == Some(network)
  {
    ri.(network := Some(network))
  }

  /** `with_env_var((key, value))`: the last value written for a key wins; a new key adds one entry. */
  function WithEnvVar(ri: RunnableImage, kv: (string, string)): (r: RunnableImage)
    ensures OnlyChanged(ri, r, EnvVarsField)
    ensures ToMap(r.envVars) == ToMap(ri.envVars)[kv.0 := kv.1]
    ensures |r.envVars| == if kv.0 in ToMap(ri.envVars) then |ri.envVars| else |ri.envVars| + 1
  {
    ToMapKeys(ri.envVars);
    ri.(envVars := Insert(ri.envVars, kv.0, kv.1))
  }

  /** `with_host(key, value)`: adds or replaces the alias `key`. */
  function WithHost(ri: RunnableImage, key: string, value: Host): (r: RunnableImage)
    ensures OnlyChanged(ri, r, HostsField)
    ensures ToMap(r.hosts) == ToMap(ri.hosts)[key := value]
    ensures |r.hosts| == if key in ToMap(ri.hosts) then |ri.hosts| else |ri.hosts| + 1
  {
    ToMapKeys(ri.hosts);
    ri.(hosts := Insert(ri.hosts, key, value))
  }

  /** `with_volume((orig, dest))`: adds or replaces the mount of host path `orig`. */
  function WithVolume(ri: RunnableImage, mount: (string, string)): (r: RunnableImage)
    ensures OnlyChanged(ri, r, VolumesField)
    ensures ToMap(r.volumes) == ToMap(ri.volumes)[mount.0 := mount.1]
    ensures |r.volumes| == if mount.0 in ToMap(ri.volumes) then |ri.volumes| else |ri.volumes| + 1
  {
    ToMapKeys(ri.volumes);
    ri.(volumes := Insert(ri.volumes, mount.0, mount.1))
  }

  /**
   * `with_mapped_port(port)`: appends to the requested bindings, starting from none when
   * there were none; earlier requests keep their order and nothing is deduplicated.
   */
  function WithMappedPort(ri: RunnableImage, port: Port): (r: RunnableImage)
    ensures OnlyChanged(ri, r, PortsField)
    ensures r.ports.Some?
    ensures ri.ports.None? ==> r.ports.value == [port]
    ensures ri.ports.Some? ==>
      && |r.ports.value| == |ri.ports.value| + 1
      && r.ports.value[..|ri.ports.value|] == ri.ports.value
      && r.ports.value[|ri.ports.value|] == port
  {
    var ports := ri.ports.GetOr([]);
    ri.(ports := Some(ports + [port]))
  }

  function WithPrivileged(ri: RunnableImage, privileged: bool): (r: RunnableImage)
    ensures OnlyChanged(ri, r, PrivilegedField) && r.privileged == privileged
  {
    ri.(privileged := privileged)
  }

  /** `with_shm_size(bytes)`: the shared-memory size in bytes. */
  function WithShmSize(ri: RunnableImage, bytes: u64): (r: RunnableImage)
    ensures OnlyChanged(ri, r, ShmSizeField) && r.shmSize == Some(bytes)
  {
    ri.(shmSize := Some(bytes))
  }
}

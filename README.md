# testcontainers-rs: the image configuration layer, in Dafny

This project models the configuration layer of testcontainers-rs
(`testcontainers/src/core/image.rs`) and proves properties of it. That layer covers:

- the `Image` trait, which gives a test dependency's defaults;
- the `RunnableImage` overlay, which wraps an image with its arguments and the user's
  overrides and resolves them into what a runner hands to the container engine;
- the `WaitFor` readiness conditions and their constructors;
- the `ExecCommand` post-start command builder;
- the host-port lookups of `ContainerState`;
- the `Host` alias target and its display;
- `Port` bindings.

Every builder in the source takes its receiver by value and returns a new value. So the
overlay and the command builder are Dafny datatypes, and each `with_*` call is a function
from the old value to the new one. A `BTreeMap<String, _>` is modelled as a list of
entries with strictly ascending keys (`BTreeMaps.BTreeMap`), which is both the map and its
iteration order. `BTreeMaps.ToMap` gives the map the list stands for.

Files:

- `wrappers.dfy`: `Option`, with `unwrap_or` and `or`.
- `string_order.dfy`: the order of Rust strings.
- `btree_map.dfy`: the ordered map and its `insert`.
- `numbers.dfy`: `u16`/`u64`, decimal display, and `u64::from_str`.
- `duration.dfy`: `std::time::Duration`.
- `wait_for.dfy`, `exec_command.dfy`, `container_state.dfy`, `host.dfy` and
  `runnable_image.dfy`: the parts of `image.rs`.
- `overlay_laws.dfy`: laws over whole chains of builder calls.
- `scenarios.dfy`: worked examples of the descriptor, env-var and host rules; the
  `HelloWorld` image and the `custom-host` alias come from `testcontainers/tests/sync_runner.rs`.

Inputs the source reads implicitly are explicit parameters here:

- the process environment read by `millis_in_env_var` is its `lookup: Option<string>` argument;
- the standard library's `Display` for `IpAddr` is the `showAddr` argument of `HostAliases.Display`.

## Model

| member | source | states |
|---|---|---|
| StringOrder.LessTransitive | testcontainers/src/core/image.rs:197-199 | the key order of the overlay's maps is transitive |
| StringOrder.LessTotal | testcontainers/src/core/image.rs:197-199 | any two distinct keys are ordered one way or the other |
| StringOrder.LessIrreflexive | testcontainers/src/core/image.rs:197-199 | no key is below itself |
| StringOrder.LessAsymmetric | testcontainers/src/core/image.rs:197-199 | two keys are never each below the other |
| BTreeMaps.Insert | testcontainers/src/core/image.rs:330-346 | `insert` yields an ordered map denoting the old map updated at the key (last write wins); the key set gains the key; the length grows by one exactly when the key is new |
| BTreeMaps.OrderedUnique | testcontainers/src/core/image.rs:197-199 | two key-ordered entry lists denoting the same map are equal, so ascending-key iteration order is determined by the map's contents |
| BTreeMaps.ToMapKeys | testcontainers/src/core/image.rs:197-199 | the keys of the denoted map are exactly the keys in the entry list |
| Numbers.ToDecimal | testcontainers/src/core/image.rs:153 | the `{internal_port}` rendering is non-empty, all digits, with no leading zero except for 0 itself |
| Numbers.ParseU64 | testcontainers/src/core/image.rs:447-450 | `parse::<u64>` succeeds exactly on an optional `+` followed by one or more digits whose value is below 2^64, and returns that value |
| Numbers.DecimalValue | testcontainers/src/core/image.rs:447-450 | the digits of a number's decimal rendering denote that number |
| Numbers.DecimalRoundTrip | testcontainers/src/core/image.rs:447-450 | parsing a number's decimal rendering (with or without `+`) gives the number back when it is below 2^64, and fails with overflow otherwise |
| Numbers.ParseRejectsNonNumbers | testcontainers/src/core/image.rs:447-450 | empty text, a lone `+`, `-1`, surrounding spaces and letters are rejected; `250` and `007` parse |
| Durations.FromSecs | testcontainers/src/core/image.rs:434-438 | `Duration::from_secs(n)` lasts n*1000 ms |
| Durations.FromMillis | testcontainers/src/core/image.rs:440-444 | `Duration::from_millis(m)` lasts m ms |
| Durations.TotalNanosInjective | testcontainers/src/core/image.rs:407-419 | a duration is determined by its length, so equality of `WaitFor::Duration` values is equality of lengths |
| Durations.SecsAsMillis | testcontainers/src/core/image.rs:434-444 | `from_secs(n)` equals `from_millis(n*1000)` whenever n*1000 fits in a u64 |
| WaitConditions.MessageOnStdout | testcontainers/src/core/image.rs:422-426 | builds a stdout-message condition carrying the given text |
| WaitConditions.MessageOnStderr | testcontainers/src/core/image.rs:428-432 | builds a stderr-message condition carrying the given text |
| WaitConditions.Seconds | testcontainers/src/core/image.rs:434-438 | a duration condition of n*1000 ms |
| WaitConditions.Millis | testcontainers/src/core/image.rs:440-444 | a duration condition of n ms |
| WaitConditions.MillisInEnvVar | testcontainers/src/core/image.rs:446-457 | gives a duration condition exactly when the variable is set and parses as a u64, and then that many ms; otherwise `Nothing`; it never fails |
| WaitConditions.SecondsAreMillis | testcontainers/src/core/image.rs:434-444 | `seconds(n)` and `millis(n*1000)` build the same condition |
| WaitConditions.MillisInEnvVarReadsDecimal | testcontainers/src/core/image.rs:446-457 | a variable holding the decimal form of m yields `millis(m)` when m fits in a u64, else `Nothing` |
| WaitConditions.MillisInEnvVarFallsBack | testcontainers/src/core/image.rs:446-457 | unset, empty, non-numeric and negative values yield `Nothing`; `"250"` yields a 250 ms wait |
| ExecCommands.New | testcontainers/src/core/image.rs:113-119 | a new command keeps its argv, has `Nothing` as its own condition and no container conditions |
| ExecCommands.Default | testcontainers/src/core/image.rs:134-138 | the default command is the empty command with no conditions |
| ExecCommands.WithContainerReadyConditions | testcontainers/src/core/image.rs:122-125 | replaces the container conditions and leaves the command and its own condition as they were |
| ExecCommands.WithCmdReadyCondition | testcontainers/src/core/image.rs:128-131 | replaces the command's own condition and leaves the rest as it was |
| ExecCommands.BuildersIndependent | testcontainers/src/core/image.rs:122-131 | the two builders commute, and a repeated call of either keeps only the last value |
| ContainerStates.HostPortIpv4 | testcontainers/src/core/image.rs:150-154 | returns the IPv4 host port exactly when the internal port is mapped, and otherwise panics with a message naming the port |
| ContainerStates.HostPortIpv6 | testcontainers/src/core/image.rs:156-160 | the same lookup against the IPv6 mappings |
| ContainerStates.PanicNamesPort | testcontainers/src/core/image.rs:153 | the panic message ends with the decimal port number, which parses back to the port |
| ContainerStates.Ipv4OnlyBinding | testcontainers/src/core/image.rs:150-160 | with 80 mapped to 32768 over IPv4 only, the IPv4 lookup gives 32768, and both the IPv6 lookup and the lookup of an unpublished port panic |
| HostAliases.Display | testcontainers/src/core/image.rs:179-186 | `HostGateway` displays as `host-gateway`; an address displays as the address's own rendering |
| HostAliases.GatewayIsNotAddressText | testcontainers/src/core/image.rs:183 | `host-gateway` is not made of the characters an IP address is written with |
| HostAliases.GatewayTextIsUnambiguous | testcontainers/src/core/image.rs:179-186 | a host displays as `host-gateway` if and only if it is `HostGateway`, as long as addresses render as address text |
| Images.PortFrom | testcontainers/src/core/image.rs:460-464 | a `(u16, u16)` pair converts to a port with local = first and internal = second |
| Images.ImageWithDefaults | testcontainers/src/core/image.rs:64-101 | an image supplying only name, tag and conditions has no env vars, no volumes, no entrypoint, no extra exposed ports and no post-start commands for any state; with `Args = ()` its default arguments are empty |
| Images.FromImageAndArgs | testcontainers/src/core/image.rs:380-396 | a fresh overlay has no overrides, empty maps, no requested ports and is not privileged; so it resolves to the image's descriptor, env vars and volumes, and has no hosts |
| Images.FromImage | testcontainers/src/core/image.rs:370-378 | the same as from `(image, I::Args::default())`: the arguments are the image's own default arguments, and nothing else is overridden |
| Images.Descriptor | testcontainers/src/core/image.rs:251-259 | (name override, else the image's name) + ":" + (tag override, else the image's tag); for every overlay, whatever `with_tag` was given, it is non-empty |
| Images.EnvVars | testcontainers/src/core/image.rs:222-224 | the image's env vars in the image's order, followed by the overlay's map in strictly ascending key order, with no deduplication between the two |
| Images.Volumes | testcontainers/src/core/image.rs:230-232 | the image's volumes, followed by the overlay's map in ascending key order |
| Images.Hosts | testcontainers/src/core/image.rs:226-228 | exactly the overlay's aliases, in ascending key order |
| Images.WithArgs | testcontainers/src/core/image.rs:291-296 | sets the arguments; every other field and the image are unchanged |
| Images.WithName | testcontainers/src/core/image.rs:300-305 | sets the name override; everything else is unchanged |
| Images.WithTag | testcontainers/src/core/image.rs:309-314 | sets the tag override; everything else is unchanged |
| Images.WithContainerName | testcontainers/src/core/image.rs:316-321 | sets the container name; everything else is unchanged |
| Images.WithNetwork | testcontainers/src/core/image.rs:323-328 | sets the network; everything else is unchanged |
| Images.WithEnvVar | testcontainers/src/core/image.rs:330-334 | updates only the env map at the key (last write wins); the map grows by one entry exactly when the key is new; everything else is unchanged |
| Images.WithHost | testcontainers/src/core/image.rs:336-340 | updates only the hosts map at the alias, with the same growth rule |
| Images.WithVolume | testcontainers/src/core/image.rs:342-346 | updates only the volumes map at the host path, with the same growth rule |
| Images.WithMappedPort | testcontainers/src/core/image.rs:348-356 | `None` becomes `[p]`; an existing list gains `p` at its end with earlier entries kept in order; everything else is unchanged |
| Images.WithPrivileged | testcontainers/src/core/image.rs:358-360 | sets the privileged flag; everything else is unchanged |
| Images.WithShmSize | testcontainers/src/core/image.rs:362-367 | sets the shared-memory size; everything else is unchanged |
| OverlayLaws.ApplyStep | testcontainers/src/core/image.rs:291-367 | one builder call keeps the image and changes the name, tag, one env var or the port list only when it is the builder for that field |
| OverlayLaws.ChainKeepsImage | testcontainers/src/core/image.rs:247-271 | after any chain of builders, the ready conditions, entrypoint, exposed ports and post-start commands are still the wrapped image's |
| OverlayLaws.ChainNameAndTag | testcontainers/src/core/image.rs:300-314 | after any chain, the name and tag overrides in force are the last ones set, or the original ones |
| OverlayLaws.ChainDescriptor | testcontainers/src/core/image.rs:251-259 | after any chain, the descriptor is the last name override or the image's name, then `:`, then the same for the tag |
| OverlayLaws.ChainEnvVarLastWriteWins | testcontainers/src/core/image.rs:330-334 | after any chain, each env var key holds the value of its last `with_env_var`, or its earlier value when there was none |
| OverlayLaws.ChainPortsAppend | testcontainers/src/core/image.rs:348-356 | after any chain, the requested ports are the earlier ones followed by every `with_mapped_port` argument in call order, with no deduplication; there is no list only when none was ever requested |
| OverlayLaws.SplitJoined | testcontainers/src/core/image.rs:258 | `name:tag` splits at its last colon back into name and tag when the tag has no colon |
| OverlayLaws.DescriptorRoundTrip | testcontainers/src/core/image.rs:251-259 | when the resolved tag has no colon, splitting the descriptor at its last colon gives back the resolved name and tag |
| OverlayLaws.TraitDefaultsThroughOverlay | testcontainers/src/core/image.rs:64-101 | a fresh overlay over a defaults-only image has no entrypoint, exposed ports, post-start commands, env vars, volumes or hosts, and keeps the image's conditions and `name:tag` |
| OverlayLaws.FromThenWithArgs | testcontainers/src/core/image.rs:277-290 | `from(image).with_args(args)` equals `from((image, args))` |
| Scenarios.HelloWorld | testcontainers/tests/sync_runner.rs:14-31 | the test image is named `hello-world`, tagged `latest`, and waits for "Hello from Docker!" on stdout |
| Scenarios.HelloWorldDescriptors | testcontainers/src/core/image.rs:251-259 | no overrides give `hello-world:latest`; name `myorg/hello-world` and tag `v2` give `myorg/hello-world:v2`; tag alone gives `hello-world:v2` |
| Scenarios.DerivedOverlayLeavesBase | testcontainers/src/core/image.rs:309-314 | `base.with_tag("x")` resolves to `hello-world:x` while `base` still resolves to `hello-world:latest` |
| Scenarios.EnvVarWrittenTwice | testcontainers/src/core/image.rs:330-334 | writing `A=1` and then `A=2` leaves one entry, `A=2` |
| Scenarios.EnvVarsImageFirstThenSorted | testcontainers/src/core/image.rs:222-224 | image `B=image`, then overlay writes `B=overlay` and `A=x`, resolve to `B=image, A=x, B=overlay` |
| Scenarios.CustomHostGateway | testcontainers/tests/sync_runner.rs:99-100 | `with_host("custom-host", HostGateway)` makes it the only alias |

## Left out

- Readiness evaluation is not modelled. This covers matching log messages, polling health
  status, sleeping for a `Duration`, and the strictly sequential order in which a runner
  checks conditions. It happens in the runner, which is not part of this model; only the
  condition values and their constructors are modelled.
- `Ports` and its `map_to_host_port_ipv4`/`ipv6` are in ports.rs, which is not part of
  this model. They appear only as two maps from internal port to host port. So the model
  does not state which ports a runner binds (the union of the image's exposed ports and
  the requested ones), and it cannot state that a lookup of any other port panics.
- `std::env::var` (process environment I/O) is not modelled: `MillisInEnvVar` takes the
  lookup's result instead. A variable that is set but not valid Unicode counts as unset.
- The `ParseIntError` kinds (empty, invalid digit, overflow) are all `None`, because the
  only caller discards them.
- `Display for IpAddr` is standard-library formatting and is not modelled. It is a
  parameter of `HostAliases.Display`. `IpAddr` is kept as a plain value.
- `ImageArgs::into_iterator` and its boxed iterators are not modelled: arguments are the
  sequence of strings the iterator would yield. Each image carries what its own
  `Args::default()` yields (`defaultArgs`); for `()` that is no strings.
- Getters that only return a field (`image`, `args`, `network`, `container_name`, `ports`,
  `privileged`, `shm_size`) are the datatype's own field selectors, and
  `ContainerState::new` is the datatype constructor `ContainerState`.
- Images.Entrypoint, Images.ReadyConditions, Images.ExposePorts and Images.ExecAfterStart
  carry no contract of their own, because each only forwards to the wrapped image.
  `OverlayLaws.ChainKeepsImage` and `OverlayLaws.TraitDefaultsThroughOverlay` state what
  they return.
- The builders' in-place steps are modelled as value updates. These are the `insert` on
  the moved-in `BTreeMap`, the `push` on the moved-in `Vec`, and the field assignments on
  `mut self` in `ExecCommand`. Each builder owns the value it changes and returns it, so
  no other reference can observe the intermediate state.
- Trait bounds (`Sync`, `Send`), the `Clone`/`Debug` derives, the `Default` requirement on
  images, and concrete images such as `GenericImage` are not modelled.
- The documentation encourages a tag that will not change (not `latest`). Nothing in the
  code checks this, so the model does not assume it. The model does not assume non-empty
  names or tags either; a descriptor is non-empty anyway, because it contains `:`.
- `u64::from_str` accepts a leading `+` (`"+250"` gives 250 ms). The model keeps this
  standard-library behaviour, which makes the accepted input slightly wider than "decimal
  digits only".

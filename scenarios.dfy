/**
 * Worked examples of the descriptor, env-var and host rules. The `HelloWorld` image and the
 * `custom-host` alias come from testcontainers/tests/sync_runner.rs; the other overlays
 * are examples built on that image.
 */
module Scenarios {
  import opened BTreeMaps
  import opened WaitConditions
  import opened HostAliases
  import opened Images

  /** The `HelloWorld` image of the tests: only the required methods, everything else defaulted, `Args = ()`. */
  function HelloWorld(): (img: Image)
    ensures img.name == "hello-world" && img.tag == "latest"
    ensures img.readyConditions == [StdOutMessage("Hello from Docker!")]
    ensures img.defaultArgs == []
  {
    ImageWithDefaults("hello-world", "latest", [MessageOnStdout("Hello from Docker!")])
  }

  /** Without overrides the descriptor is the image's own; `with_name` and `with_tag` replace each part. */
  lemma HelloWorldDescriptors()
    ensures Descriptor(FromImage(HelloWorld())) == "hello-world:latest"
    ensures Descriptor(WithTag(WithName(FromImage(HelloWorld()), "myorg/hello-world"), "v2")) == "myorg/hello-world:v2"
    ensures Descriptor(WithTag(FromImage(HelloWorld()), "v2")) == "hello-world:v2"
  {
  }

  /** Deriving an overlay from a base leaves the base as it was: values are never shared mutably. */
  lemma DerivedOverlayLeavesBase()
    ensures var base := FromImage(HelloWorld());
      var derived := WithTag(base, "x");
      Descriptor(base) == "hello-world:latest" && Descriptor(derived) == "hello-world:x"
  {
  }

  /** Writing `A` twice keeps one entry, holding the second value. */
  lemma EnvVarWrittenTwice()
    ensures var ri := WithEnvVar(WithEnvVar(FromImage(HelloWorld()), ("A", "1")), ("A", "2"));
      && ToMap(ri.envVars) == map["A" := "2"]
      && |ri.envVars| == 1
      && EnvVars(ri) == [("A", "2")]
  {
  }

  /**
   * The image's own variables come first and are not merged with the overlay's; the
   * overlay's come in key order whatever order they were written in.
   */
  lemma EnvVarsImageFirstThenSorted()
    ensures var img := HelloWorld().(envVars := [("B", "image")]);
      var ri := WithEnvVar(WithEnvVar(FromImage(img), ("B", "overlay")), ("A", "x"));
      EnvVars(ri) == [("B", "image"), ("A", "x"), ("B", "overlay")]
  {
  }

  /** The extra host of the "extra hosts" test: `custom-host` resolves to the gateway. */
  lemma CustomHostGateway(image: Image, url: string)
    ensures Hosts(WithHost(FromImageAndArgs(image, [url]), "custom-host", HostGateway))
         == [("custom-host", HostGateway)]
  {
  }
}

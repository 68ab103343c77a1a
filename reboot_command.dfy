/**
 * The command lines the domain reboot step builds. The step restarts a host
 * controller through a separate patching process: the patching process is
 * given the host controller's own command line, joined with '&' into one
 * `--hc-cmd=` argument, and later splits it again to start the host
 * controller.
 */
module RebootCommand {
  import opened Common

  /** What the host controller environment contributes to the command lines. */
  datatype HostEnv = HostEnv(
    defaultJvm: string,          // absolute path of the default JVM
    homeDir: string,             // absolute path of the home directory
    domainConfigDir: string,     // absolute path of the domain configuration directory
    rawArgs: seq<string>,        // what the raw command-line arguments append
    pcAddress: string,           // process controller address
    pcPort: int)                 // process controller port

  /** The process controller client; only its presence matters here. */
  datatype ProcessControllerClient = ProcessControllerClient

  /** A constructed reboot step handler. */
  datatype RebootHandler = RebootHandler(
    environment: HostEnv, modulePath: string, client: ProcessControllerClient)

  const PatchingBootModule := "org.jboss.as.patching.process"
  const HostControllerBootModule := "org.jboss.as.host-controller"
  const LogModule := "org.jboss.logmanager"
  const JaxpModule := "javax.xml.jaxp-provider"
  const BootJarName := "jboss-modules.jar"
  const LogManagerProperty := "-Djava.util.logging.manager="
  const LogManagerClass := "org.jboss.logmanager.LogManager"
  const LogManagerOption := LogManagerProperty + LogManagerClass
  const LoggingOption := "-Dlogging.configuration="
  const HcCmdOption := "--hc-cmd="
  const Amp := "&"

  function BootFlags(bootJar: string, modulePath: string, jaxpModule: string, bootModule: string): seq<string>
  {
    ["-jar", bootJar, "-mp", modulePath, "-jaxpmodule", jaxpModule, bootModule, LogManagerOption]
  }

  /**
   * The seven-argument `createCommand`: the JVM, its options in order, then the
   * boot jar, module path, JAXP module and boot module with their flags, and the
   * log manager property. The log module is accepted but not used.
   */
  function CreateCommand(jvm: string, javaOptions: seq<string>, bootJar: string, modulePath: string,
                         logModule: string, jaxpModule: string, bootModule: string): (r: seq<string>)
    ensures |r| == |javaOptions| + 9
    ensures r[0] == jvm && r[1..|javaOptions| + 1] == javaOptions
    ensures r[|javaOptions| + 1..] == BootFlags(bootJar, modulePath, jaxpModule, bootModule)
  {
    [jvm] + javaOptions + BootFlags(bootJar, modulePath, jaxpModule, bootModule)
  }

  /** The log module argument has no effect on the command. */
  lemma LogModuleIgnored(jvm: string, javaOptions: seq<string>, bootJar: string, modulePath: string,
                         log1: string, log2: string, jaxpModule: string, bootModule: string)
    ensures CreateCommand(jvm, javaOptions, bootJar, modulePath, log1, jaxpModule, bootModule)
         == CreateCommand(jvm, javaOptions, bootJar, modulePath, log2, jaxpModule, bootModule)
  {
  }

  /**
   * `createCommand(environment, bootModule, modulePath)`: the default JVM, no
   * JVM options, the boot jar under the home directory and the fixed modules.
   */
  function CommandFor(env: HostEnv, bootModule: string, modulePath: string): (r: seq<string>)
    ensures |r| == 9 && r[0] == env.defaultJvm
    ensures r[1..] == BootFlags(Child(env.homeDir, BootJarName), modulePath, JaxpModule, bootModule)
  {
    CreateCommand(env.defaultJvm, [], Child(env.homeDir, BootJarName), modulePath, LogModule, JaxpModule, bootModule)
  }

  /** The logging option, present only when the logging configuration property is set. */
  function LoggingArgs(logging: Option<string>): seq<string>
  {
    match logging
    case None => []
    case Some(v) => [LoggingOption + v]
  }

  /** The host controller command before it is joined. */
  function HostControllerArgs(env: HostEnv, modulePath: string, logging: Option<string>): (r: seq<string>)
    ensures |r| == 9 + |env.rawArgs| + 2 + (if logging.Some? then 1 else 0)
    ensures r[..9] == CommandFor(env, HostControllerBootModule, modulePath)
    ensures r[9..9 + |env.rawArgs|] == env.rawArgs
    ensures r[9 + |env.rawArgs|] == "-mp" && r[10 + |env.rawArgs|] == modulePath
    ensures logging.Some? ==> r[11 + |env.rawArgs|] == LoggingOption + logging.value
  {
    CommandFor(env, HostControllerBootModule, modulePath) + env.rawArgs + ["-mp", modulePath] + LoggingArgs(logging)
  }

  /** The joining loop of `createHCCommand`: the first part, then '&' and each further part. */
  method JoinWithAmp(command: seq<string>) returns (r: string)
    requires command != []
    ensures r == Join(Amp, command)
  {
    r := command[0];
    var i := 1;
    while i < |command|
      invariant 1 <= i <= |command|
      invariant r == Join(Amp, command[..i])
    {
      assert command[..i + 1] == command[..i] + [command[i]];
      JoinSnoc(Amp, command[..i], command[i]);
      r := r + Amp + command[i];
      i := i + 1;
    }
    assert command[..i] == command;
  }

  /** `createHCCommand`: the host controller command joined into one string. */
  method CreateHostControllerCommand(env: HostEnv, modulePath: string, logging: Option<string>) returns (r: string)
    ensures r == Join(Amp, HostControllerArgs(env, modulePath, logging))
  {
    var command := CommandFor(env, HostControllerBootModule, modulePath);
    command := command + env.rawArgs;
    command := command + ["-mp", modulePath];
    match logging {
      case Some(v) =>
        command := command + [LoggingOption + v];
      case None =>
    }
    assert command == HostControllerArgs(env, modulePath, logging);
    r := JoinWithAmp(command);
  }

  /** The logging configuration the patching process gets: the property, or the domain's file. */
  function PatchingLogging(env: HostEnv, logging: Option<string>): string
  {
    match logging
    case Some(v) => v
    case None => "file:" + env.domainConfigDir + "/logging.properties"
  }

  /** The patching process arguments that follow its base command. */
  function PatchingArgs(env: HostEnv, encodedAuthKey: string, logging: Option<string>, hcCommand: string): seq<string>
  {
    [LoggingOption + PatchingLogging(env, logging),
     "--pc-address=" + env.pcAddress,
     "--pc-port=" + IntToString(env.pcPort),
     "--auth-key=" + encodedAuthKey,
     "--wrk-dir=" + env.homeDir,
     HcCmdOption + hcCommand]
  }

  /**
   * `createPatchingProcessCmd`: the patching process boot command, the logging
   * configuration (the domain's `logging.properties` when the property is not
   * set), the process controller address and port, the encoded authentication
   * key, the working directory and the joined host controller command.
   */
  method CreatePatchingProcessCommand(env: HostEnv, modulePath: string, encodedAuthKey: string,
                                      logging: Option<string>) returns (r: seq<string>)
    ensures |r| == 15
    ensures r[..9] == CommandFor(env, PatchingBootModule, modulePath)
    ensures r[9] == LoggingOption + (if logging.Some? then logging.value
                                     else "file:" + env.domainConfigDir + "/logging.properties")
    ensures r[9..] == PatchingArgs(env, encodedAuthKey, logging, Join(Amp, HostControllerArgs(env, modulePath, logging)))
    ensures r[14] == HcCmdOption + Join(Amp, HostControllerArgs(env, modulePath, logging))
  {
    var command := CommandFor(env, PatchingBootModule, modulePath);
    var loggingConfiguration := PatchingLogging(env, logging);
    command := command + [LoggingOption + loggingConfiguration];
    command := command + ["--pc-address=" + env.pcAddress];
    command := command + ["--pc-port=" + IntToString(env.pcPort)];
    command := command + ["--auth-key=" + encodedAuthKey];
    command := command + ["--wrk-dir=" + env.homeDir];
    var hc := CreateHostControllerCommand(env, modulePath, logging);
    command := command + [HcCmdOption + hc];
    r := command;
  }

  // ---------------------------------------------------------------------------
  // Reading the host controller command back, as the patching process does.

  /** The fields of `s` between the occurrences of `c`, the empty ones included. */
  function Fields(s: string, c: char): (r: seq<string>)
    ensures |r| >= 1
  {
    if s == [] then [""]
    else
      var init := Fields(s[..|s| - 1], c);
      if s[|s| - 1] == c then init + [""]
      else init[..|init| - 1] + [init[|init| - 1] + [s[|s| - 1]]]
  }

  /** The list without its trailing empty strings. */
  function DropTrailingEmpty(xs: seq<string>): (r: seq<string>)
    ensures |r| <= |xs| && r == xs[..|r|]
    ensures r == [] || r[|r| - 1] != ""
    ensures forall k :: |r| <= k < |xs| ==> xs[k] == ""
  {
    if xs != [] && xs[|xs| - 1] == "" then DropTrailingEmpty(xs[..|xs| - 1]) else xs
  }

  /**
   * Java's `String.split` on a one-character separator: a string without the
   * separator comes back whole; otherwise the fields, with the trailing empty
   * ones removed.
   */
  function JavaSplit(s: string, c: char): (r: seq<string>)
    ensures c !in s ==> r == [s]
    ensures forall k :: 0 <= k < |r| ==> c !in r[k]
    ensures r == [] || r[|r| - 1] != "" || c !in s
  {
    if c !in s then [s] else FieldsAvoid(s, c); DropTrailingEmpty(Fields(s, c))
  }

  /** No field contains the separator. */
  lemma {:induction false} FieldsAvoid(s: string, c: char)
    ensures forall k :: 0 <= k < |Fields(s, c)| ==> c !in Fields(s, c)[k]
  {
    if s != [] {
      FieldsAvoid(s[..|s| - 1], c);
    }
  }

  /** A string without the separator is a single field. */
  lemma {:induction false} FieldsOfPlain(s: string, c: char)
    requires c !in s
    ensures Fields(s, c) == [s]
  {
    if s != [] {
      var init := s[..|s| - 1];
      assert c !in init by {
        forall k | 0 <= k < |init| ensures init[k] != c {
          assert init[k] == s[k];
        }
      }
      FieldsOfPlain(init, c);
      assert init + [s[|s| - 1]] == s;
      FieldsSnoc(init, s[|s| - 1], c);
    }
  }

  /** One more character: a separator opens a new field, anything else extends the last one. */
  lemma FieldsSnoc(s: string, x: char, c: char)
    ensures Fields(s + [x], c) ==
      var fs := Fields(s, c);
      if x == c then fs + [""] else fs[..|fs| - 1] + [fs[|fs| - 1] + [x]]
  {
    assert (s + [x])[..|s|] == s;
  }

  /** The last-field step commutes with putting fields in front. */
  lemma ExtendLast(fa: seq<string>, fb: seq<string>, x: char, c: char)
    requires |fb| >= 1
    ensures var fs := fa + fb;
      (if x == c then fs + [""] else fs[..|fs| - 1] + [fs[|fs| - 1] + [x]]) ==
      fa + (if x == c then fb + [""] else fb[..|fb| - 1] + [fb[|fb| - 1] + [x]])
  {
    var fs := fa + fb;
    if x != c {
      assert fs[..|fs| - 1] == fa + fb[..|fb| - 1];
    }
  }

  /** Splitting at one separator: the fields of both sides, side by side. */
  lemma {:induction false} FieldsAppend(a: string, c: char, b: string)
    ensures Fields(a + [c] + b, c) == Fields(a, c) + Fields(b, c)
    decreases |b|
  {
    if b == [] {
      assert a + [c] + b == a + [c];
      FieldsSnoc(a, c, c);
    } else {
      var b' := b[..|b| - 1];
      var last := b[|b| - 1];
      assert a + [c] + b == (a + [c] + b') + [last];
      assert b == b' + [last];
      FieldsAppend(a, c, b');
      FieldsSnoc(a + [c] + b', last, c);
      FieldsSnoc(b', last, c);
      ExtendLast(Fields(a, c), Fields(b', c), last, c);
    }
  }

  /** Fields inverts a join of parts free of the separator. */
  lemma {:induction false} FieldsOfJoin(xs: seq<string>, c: char)
    requires xs != []
    requires forall k :: 0 <= k < |xs| ==> c !in xs[k]
    ensures Fields(Join([c], xs), c) == xs
  {
    if |xs| == 1 {
      FieldsOfPlain(xs[0], c);
    } else {
      var init := xs[..|xs| - 1];
      FieldsOfJoin(init, c);
      FieldsAppend(Join([c], init), c, xs[|xs| - 1]);
      FieldsOfPlain(xs[|xs| - 1], c);
      assert init + [xs[|xs| - 1]] == xs;
    }
  }

  /** A join of two or more parts contains the separator. */
  lemma JoinHasSeparator(xs: seq<string>, c: char)
    requires |xs| >= 2
    ensures c in Join([c], xs)
  {
    var j := Join([c], xs[..|xs| - 1]);
    assert Join([c], xs) == j + [c] + xs[|xs| - 1];
    assert Join([c], xs)[|j|] == c;
  }

  /**
   * The joined command splits back into its parts, provided no part is empty
   * and none contains '&'.
   */
  lemma SplitJoin(xs: seq<string>, c: char)
    requires xs != []
    requires forall k :: 0 <= k < |xs| ==> xs[k] != "" && c !in xs[k]
    ensures JavaSplit(Join([c], xs), c) == xs
  {
    if |xs| == 1 {
      FieldsOfPlain(xs[0], c);
    } else {
      JoinHasSeparator(xs, c);
      FieldsOfJoin(xs, c);
    }
  }

  /** The part of a `--hc-cmd=` argument after the option name. */
  function HcCmdValue(arg: string): (r: Option<string>)
    ensures r.Some? <==> |HcCmdOption| <= |arg| && arg[..|HcCmdOption|] == HcCmdOption
    ensures r.Some? ==> arg == HcCmdOption + r.value
  {
    if |HcCmdOption| <= |arg| && arg[..|HcCmdOption|] == HcCmdOption then Some(arg[|HcCmdOption|..]) else None
  }

  /** A string that is not empty and contains no '&'. */
  predicate Plain(s: string)
  {
    s != "" && '&' !in s
  }

  lemma PlainConcat(a: string, b: string)
    requires '&' !in a && '&' !in b && (a != "" || b != "")
    ensures Plain(a + b)
  {
  }

  /** Every boot flag is plain when the boot jar and the module path are. */
  lemma BootFlagsPlain(bootJar: string, modulePath: string, bootModule: string)
    requires Plain(bootJar) && Plain(modulePath) && Plain(bootModule)
    ensures forall k :: 0 <= k < 8 ==> Plain(BootFlags(bootJar, modulePath, JaxpModule, bootModule)[k])
  {
    var flags := BootFlags(bootJar, modulePath, JaxpModule, bootModule);
    assert Plain(flags[0]) && Plain(flags[2]) && Plain(flags[4]) && Plain(flags[5]);
    PlainConcat(LogManagerProperty, LogManagerClass);
    assert Plain(flags[7]);
  }

  /** The base command is plain when the JVM, home directory, module path and boot module are. */
  lemma CommandForPlain(env: HostEnv, bootModule: string, modulePath: string)
    requires Plain(env.defaultJvm) && '&' !in env.homeDir && Plain(modulePath) && Plain(bootModule)
    ensures forall k :: 0 <= k < 9 ==> Plain(CommandFor(env, bootModule, modulePath)[k])
  {
    var bootJar := Child(env.homeDir, BootJarName);
    assert bootJar == env.homeDir + ("/" + BootJarName);
    PlainConcat(env.homeDir, "/" + BootJarName);
    BootFlagsPlain(bootJar, modulePath, bootModule);
    var flags := BootFlags(bootJar, modulePath, JaxpModule, bootModule);
    var base := CommandFor(env, bootModule, modulePath);
    forall k | 1 <= k < 9 ensures Plain(base[k]) {
      assert base[k] == base[1..][k - 1] == flags[k - 1];
    }
  }

  /** Under the round-trip conditions, every host controller argument is plain. */
  lemma HostControllerArgsPlain(env: HostEnv, modulePath: string, logging: Option<string>)
    requires Plain(env.defaultJvm) && '&' !in env.homeDir && Plain(modulePath)
    requires forall k :: 0 <= k < |env.rawArgs| ==> Plain(env.rawArgs[k])
    requires logging.Some? ==> '&' !in logging.value
    ensures forall k :: 0 <= k < |HostControllerArgs(env, modulePath, logging)| ==>
              Plain(HostControllerArgs(env, modulePath, logging)[k])
  {
    var xs := HostControllerArgs(env, modulePath, logging);
    var n := |env.rawArgs|;
    CommandForPlain(env, HostControllerBootModule, modulePath);
    var base := CommandFor(env, HostControllerBootModule, modulePath);
    if logging.Some? {
      PlainConcat(LoggingOption, logging.value);
    }
    forall k | 0 <= k < |xs| ensures Plain(xs[k]) {
      if k < 9 {
        assert xs[k] == xs[..9][k] == base[k];
      } else if k < 9 + n {
        assert xs[k] == xs[9..9 + n][k - 9] == env.rawArgs[k - 9];
      }
    }
  }

  /**
   * The host controller command survives the trip through the patching
   * process: the last argument of the patching command carries it, and
   * splitting it gives back every part, when the JVM, home directory, module
   * path, raw arguments and logging property are non-empty and free of '&'.
   */
  lemma HostControllerRoundTrip(env: HostEnv, modulePath: string, encodedAuthKey: string,
                                logging: Option<string>, patching: seq<string>)
    requires Plain(env.defaultJvm) && '&' !in env.homeDir && Plain(modulePath)
    requires forall k :: 0 <= k < |env.rawArgs| ==> Plain(env.rawArgs[k])
    requires logging.Some? ==> '&' !in logging.value
    requires |patching| == 15
    requires patching[14] == HcCmdOption + Join(Amp, HostControllerArgs(env, modulePath, logging))
    ensures HcCmdValue(patching[14]).Some?
    ensures JavaSplit(HcCmdValue(patching[14]).value, '&') == HostControllerArgs(env, modulePath, logging)
  {
    var xs := HostControllerArgs(env, modulePath, logging);
    assert (HcCmdOption + Join(Amp, xs))[|HcCmdOption|..] == Join(Amp, xs);
    HostControllerArgsPlain(env, modulePath, logging);
    assert Amp == ['&'];
    SplitJoin(xs, '&');
  }

  /**
   * The constructor: each argument must be present, checked in order, each
   * missing one with its own message.
   */
  function NewRebootHandler(environment: Option<HostEnv>, modulePath: Option<string>,
                            client: Option<ProcessControllerClient>): (r: Result<RebootHandler>)
    ensures environment.None? ==> r == Fail(RuntimeFailure("IllegalArgumentException: HostControllerEnvironment is null"))
    ensures environment.Some? && modulePath.None? ==> r == Fail(RuntimeFailure("IllegalArgumentException: Module path is null"))
    ensures environment.Some? && modulePath.Some? && client.None? ==>
              r == Fail(RuntimeFailure("IllegalArgumentException: ProcessControllerClient is null"))
    ensures r.Ok? <==> environment.Some? && modulePath.Some? && client.Some?
    ensures r.Ok? ==> r.value == RebootHandler(environment.value, modulePath.value, client.value)
  {
    if environment.None? then Fail(RuntimeFailure("IllegalArgumentException: HostControllerEnvironment is null"))
    else if modulePath.None? then Fail(RuntimeFailure("IllegalArgumentException: Module path is null"))
    else if client.None? then Fail(RuntimeFailure("IllegalArgumentException: ProcessControllerClient is null"))
    else Ok(RebootHandler(environment.value, modulePath.value, client.value))
  }
}

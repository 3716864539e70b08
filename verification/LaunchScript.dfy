/**
 * The two `java` invocations the builder produces: the first run that
 * `setup_server` starts so that the server writes eula.txt, and the one in
 * the generated start_server.bat.
 */
module LaunchScript {
  import opened Wrappers
  import opened Strings
  import opened ServerConfig

  /** `java -Xmx<xmx> -Xms<xms> -jar server.jar nogui`, as an argument list. */
  function JavaCommand(xmx: string, xms: string): seq<string>
  {
    ["java", "-Xmx" + xmx, "-Xms" + xms, "-jar", "server.jar", "nogui"]
  }

  /**
   * The first run in `setup_server`, as written: the MINIMUM bound goes to
   * -Xmx (the largest heap) and the maximum to -Xms (the initial heap).
   */
  function FirstRunCommand(config: Config): seq<string>
  {
    JavaCommand(config.memoryMin, config.memoryMax)
  }

  /**
   * The first run with the two bounds in their intended places: -Xmx the
   * maximum, -Xms the minimum.
   */
  function IntendedFirstRunCommand(config: Config): seq<string>
  {
    JavaCommand(config.memoryMax, config.memoryMin)
  }

  /** The lines of start_server.bat before and after the java line. */
  const ScriptHead := "@echo off\n\ncd /d %~dp0\nsetlocal\n\n"
  const ScriptTail := " \n\nendlocal\n\npause\n"

  /**
   * `create_start_script`'s text after `textwrap.dedent`: the template's
   * twelve-space margin is gone, the blank lines stay, and the java line
   * keeps its trailing space.
   */
  function StartScript(config: Config): string
  {
    ScriptHead + JavaLine(config) + ScriptTail
  }

  /** The script's java line, without the trailing space that ScriptTail starts with. */
  function JavaLine(config: Config): string
  {
    "java -Xmx" + config.memoryMax + " -Xms" + config.memoryMin + " -jar server.jar nogui"
  }

  /**
   * The corrected first run is exactly the command the start script runs:
   * the script's java line is its argument list joined by spaces.
   */
  lemma IntendedFirstRunMatchesScript(config: Config)
    ensures StartScript(config) == ScriptHead + Join(IntendedFirstRunCommand(config), ' ') + ScriptTail
  {
    var cmd := IntendedFirstRunCommand(config);
    var xmx := "-Xmx" + config.memoryMax;
    var xms := "-Xms" + config.memoryMin;
    assert cmd[1..][1..][1..][1..][1..] == ["nogui"];
    assert Join(cmd[1..][1..][1..][1..], ' ') == "server.jar" + " " + "nogui";
    assert Join(cmd[1..][1..][1..], ' ') == "-jar" + " " + ("server.jar" + " " + "nogui");
    assert Join(cmd[1..][1..], ' ') == xms + " " + ("-jar" + " " + ("server.jar" + " " + "nogui"));
    assert Join(cmd[1..], ' ') == xmx + " " + (xms + " " + ("-jar" + " " + ("server.jar" + " " + "nogui")));
    assert Join(cmd, ' ') == "java" + " " + (xmx + " " + (xms + " " + ("-jar" + " " + ("server.jar" + " " + "nogui"))));
    var opts := " " + ("-jar" + " " + ("server.jar" + " " + "nogui"));
    assert opts == " -jar server.jar nogui";
    assert "java" + " " + (xmx + " " + (xms + opts))
           == "java -Xmx" + config.memoryMax + " -Xms" + config.memoryMin + opts;
  }

  /**
   * The first run uses the same heap flags as the start script exactly when
   * the two bounds are equal; otherwise its -Xmx and -Xms are swapped.
   */
  lemma FirstRunMatchesScriptIff(config: Config)
    ensures FirstRunCommand(config) == IntendedFirstRunCommand(config) <==> config.memoryMin == config.memoryMax
  {
    if FirstRunCommand(config) == IntendedFirstRunCommand(config) {
      assert FirstRunCommand(config)[1] == IntendedFirstRunCommand(config)[1];
      assert ("-Xmx" + config.memoryMin)[4..] == config.memoryMin;
      assert ("-Xmx" + config.memoryMax)[4..] == config.memoryMax;
    }
  }

  /** With the default configuration (1024M both ways) the swap is invisible. */
  lemma DefaultFirstRunMatchesScript()
    ensures FirstRunCommand(LoadConfig(None)) == IntendedFirstRunCommand(LoadConfig(None))
  {
    FirstRunMatchesScriptIff(LoadConfig(None));
  }

  /**
   * With min 512M and max 2048M the first run asks for a 2048M initial heap
   * under a 512M ceiling, a combination the JVM refuses to start with.
   */
  lemma FirstRunSwapsHeapBounds()
    ensures FirstRunCommand(Config("512M", "2048M"))[1] == "-Xmx512M"
    ensures FirstRunCommand(Config("512M", "2048M"))[2] == "-Xms2048M"
    ensures FirstRunCommand(Config("512M", "2048M")) != IntendedFirstRunCommand(Config("512M", "2048M"))
  {
    FirstRunMatchesScriptIff(Config("512M", "2048M"));
  }

  /**
   * The script text determines the two bounds when neither contains a
   * space: different configurations give different scripts.
   */
  lemma StartScriptDeterminesBounds(a: Config, b: Config)
    requires ' ' !in a.memoryMax && ' ' !in b.memoryMax
    requires StartScript(a) == StartScript(b)
    ensures a == b
  {
    CancelSuffix(ScriptHead + JavaLine(a), ScriptHead + JavaLine(b), ScriptTail);
    CancelPrefix(ScriptHead, JavaLine(a), JavaLine(b));
    var tail := " -jar server.jar nogui";
    var restA := " -Xms" + (a.memoryMin + tail);
    var restB := " -Xms" + (b.memoryMin + tail);
    assert JavaLine(a) == "java -Xmx" + (a.memoryMax + restA);
    assert JavaLine(b) == "java -Xmx" + (b.memoryMax + restB);
    CancelPrefix("java -Xmx", a.memoryMax + restA, b.memoryMax + restB);
    FirstWordUnique(a.memoryMax, restA, b.memoryMax, restB);
    CancelPrefix(" -Xms", a.memoryMin + tail, b.memoryMin + tail);
    CancelSuffix(a.memoryMin, b.memoryMin, tail);
  }
}

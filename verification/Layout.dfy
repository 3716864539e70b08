/**
 * Where things go: the base directory's `servers` and `tmp` children, one
 * installation directory per resolved version, and the fixed file names
 * inside it. A path is its list of components; how `os.path.join` spells
 * them is not modelled.
 */
module Layout {

  type Path = seq<string>

  /** `p` lies at or below `dir`. */
  predicate Under(p: Path, dir: Path)
  {
    |dir| <= |p| && p[..|dir|] == dir
  }

  function ServerDir(baseDir: Path): Path { baseDir + ["servers"] }

  /** The scratch directory the Forge flow stages the installer in. */
  function TmpDir(baseDir: Path): Path { baseDir + ["tmp"] }

  /** The vanilla flow's installation directory: `servers/<version>`. */
  function VanillaServerPath(serverDir: Path, version: string): Path { serverDir + [version] }

  /** The Forge flow's installation directory: `servers/forge-<version>`. */
  function ForgeServerPath(serverDir: Path, version: string): Path { serverDir + ["forge-" + version] }

  const ServerJarName := "server.jar"

  function ServerJarPath(serverPath: Path): Path { serverPath + [ServerJarName] }

  function InstallerPath(tmpDir: Path): Path { tmpDir + ["server-installer.jar"] }

  function EulaPath(serverPath: Path): Path { serverPath + ["eula.txt"] }

  function StartScriptPath(serverPath: Path): Path { serverPath + ["start_server.bat"] }

  /**
   * Removing the scratch directory never removes anything in the servers
   * directory: the two trees are disjoint.
   */
  lemma ScratchDisjointFromServers(baseDir: Path, p: Path)
    ensures !(Under(p, ServerDir(baseDir)) && Under(p, TmpDir(baseDir)))
  {
    if Under(p, ServerDir(baseDir)) {
      assert p[|baseDir|] == ServerDir(baseDir)[|baseDir|] == "servers";
    }
    if Under(p, TmpDir(baseDir)) {
      assert p[|baseDir|] == TmpDir(baseDir)[|baseDir|] == "tmp";
    }
  }

  /**
   * The Forge installer is downloaded inside the scratch directory, and so
   * outside the servers directory.
   */
  lemma InstallerInScratch(baseDir: Path)
    ensures Under(InstallerPath(TmpDir(baseDir)), TmpDir(baseDir))
    ensures !Under(InstallerPath(TmpDir(baseDir)), ServerDir(baseDir))
  {
    ScratchDisjointFromServers(baseDir, InstallerPath(TmpDir(baseDir)));
    assert InstallerPath(TmpDir(baseDir))[..|TmpDir(baseDir)|] == TmpDir(baseDir);
  }

  /**
   * A vanilla and a Forge installation share a directory only when the
   * vanilla version is itself "forge-" followed by the Forge flow's version;
   * in particular the two flows never share one for the same release.
   */
  lemma VanillaForgeDirsIff(serverDir: Path, v: string, w: string)
    ensures VanillaServerPath(serverDir, v) == ForgeServerPath(serverDir, w) <==> v == "forge-" + w
    ensures VanillaServerPath(serverDir, w) != ForgeServerPath(serverDir, w)
  {
    if VanillaServerPath(serverDir, v) == ForgeServerPath(serverDir, w) {
      assert VanillaServerPath(serverDir, v)[|serverDir|] == ForgeServerPath(serverDir, w)[|serverDir|];
    }
    assert VanillaServerPath(serverDir, w)[|serverDir|] == w;
    assert ForgeServerPath(serverDir, w)[|serverDir|] == "forge-" + w;
  }

  /** Different releases get different installation directories, in both flows. */
  lemma ServerPathsInjective(serverDir: Path, v: string, w: string)
    requires v != w
    ensures VanillaServerPath(serverDir, v) != VanillaServerPath(serverDir, w)
    ensures ForgeServerPath(serverDir, v) != ForgeServerPath(serverDir, w)
  {
    assert VanillaServerPath(serverDir, v)[|serverDir|] == v;
    assert VanillaServerPath(serverDir, w)[|serverDir|] == w;
    assert ForgeServerPath(serverDir, v)[|serverDir|][6..] == v;
    assert ForgeServerPath(serverDir, w)[|serverDir|][6..] == w;
  }

  /**
   * The jar, the EULA file and the start script are three distinct files
   * directly inside the installation directory.
   */
  lemma InstallationFiles(serverPath: Path)
    ensures Under(ServerJarPath(serverPath), serverPath) && |ServerJarPath(serverPath)| == |serverPath| + 1
    ensures Under(EulaPath(serverPath), serverPath) && |EulaPath(serverPath)| == |serverPath| + 1
    ensures Under(StartScriptPath(serverPath), serverPath) && |StartScriptPath(serverPath)| == |serverPath| + 1
    ensures ServerJarPath(serverPath) != EulaPath(serverPath)
    ensures ServerJarPath(serverPath) != StartScriptPath(serverPath)
    ensures EulaPath(serverPath) != StartScriptPath(serverPath)
  {
    var n := |serverPath|;
    assert ServerJarPath(serverPath)[n] == ServerJarName;
    assert EulaPath(serverPath)[n] == "eula.txt";
    assert StartScriptPath(serverPath)[n] == "start_server.bat";
  }
}

/**
 * The Forge installer's download URL, and the shim jar the installer leaves
 * behind, which the Forge flow renames to server.jar.
 */
module ForgeInstaller {
  import opened Wrappers
  import opened Strings
  import opened Layout

  const MavenForgeBase := "https://maven.minecraftforge.net/net/minecraftforge/forge/"

  /** `INSTALLER_URL_TEMPLATE`, cut at its four replacement fields. */
  const InstallerUrlTemplate := [
    Text(MavenForgeBase), Field(0), Text("-"), Field(1),
    Text("/forge-"), Field(2), Text("-"), Field(3), Text("-installer.jar")
  ]

  /**
   * `build_installer_url`: the template filled with the Minecraft version
   * and the Forge version, each used twice.
   */
  function BuildInstallerUrl(mcVersion: string, forgeVersion: string): (url: string)
    ensures url == MavenForgeBase + mcVersion + "-" + forgeVersion
                   + "/forge-" + mcVersion + "-" + forgeVersion + "-installer.jar"
  {
    InstallerTemplateExpands(mcVersion, forgeVersion);
    Fill(InstallerUrlTemplate, [mcVersion, forgeVersion, mcVersion, forgeVersion]).value
  }

  /** Filling the installer template never fails, whatever the two versions are. */
  lemma InstallerTemplateExpands(mc: string, forge: string)
    ensures Fill(InstallerUrlTemplate, [mc, forge, mc, forge])
            == Some(MavenForgeBase + mc + "-" + forge + "/forge-" + mc + "-" + forge + "-installer.jar")
  {
    var args := [mc, forge, mc, forge];
    var front := [Text(MavenForgeBase), Field(0), Text("-"), Field(1)];
    var back := [Text("/forge-"), Field(2), Text("-"), Field(3), Text("-installer.jar")];
    assert InstallerUrlTemplate == front + back;
    FillFront(mc, forge);
    FillBack(mc, forge);
    FillAppend(front, back, args);
    assert (MavenForgeBase + mc + "-" + forge) + ("/forge-" + mc + "-" + forge + "-installer.jar")
           == MavenForgeBase + mc + "-" + forge + "/forge-" + mc + "-" + forge + "-installer.jar";
  }

  lemma FillFront(mc: string, forge: string)
    ensures Fill([Text(MavenForgeBase), Field(0), Text("-"), Field(1)], [mc, forge, mc, forge])
            == Some(MavenForgeBase + mc + "-" + forge)
  {
    var args := [mc, forge, mc, forge];
    var p3 := [Field(1)];
    assert Fill(p3, args) == Some(forge) by {
      assert p3[1..] == [];
      assert forge + [] == forge;
    }
    var p2 := [Text("-")] + p3;
    assert p2[1..] == p3;
    assert Fill(p2, args) == Some("-" + forge);
    var p1 := [Field(0)] + p2;
    assert p1[1..] == p2;
    assert Fill(p1, args) == Some(mc + ("-" + forge));
    var p0 := [Text(MavenForgeBase)] + p1;
    assert p0[1..] == p1;
    assert Fill(p0, args) == Some(MavenForgeBase + (mc + ("-" + forge)));
    assert p0 == [Text(MavenForgeBase), Field(0), Text("-"), Field(1)];
    assert MavenForgeBase + (mc + ("-" + forge)) == MavenForgeBase + mc + "-" + forge;
  }

  lemma FillBack(mc: string, forge: string)
    ensures Fill([Text("/forge-"), Field(2), Text("-"), Field(3), Text("-installer.jar")], [mc, forge, mc, forge])
            == Some("/forge-" + mc + "-" + forge + "-installer.jar")
  {
    var args := [mc, forge, mc, forge];
    var p4 := [Text("-installer.jar")];
    assert Fill(p4, args) == Some("-installer.jar") by {
      assert p4[1..] == [];
      assert "-installer.jar" + [] == "-installer.jar";
    }
    var p3 := [Field(3)] + p4;
    assert p3[1..] == p4;
    var u3 := forge + "-installer.jar";
    assert Fill(p3, args) == Some(u3);
    var p2 := [Text("-")] + p3;
    assert p2[1..] == p3;
    assert Fill(p2, args) == Some("-" + u3);
    var p1 := [Field(2)] + p2;
    assert p1[1..] == p2;
    assert Fill(p1, args) == Some(mc + ("-" + u3));
    var p0 := [Text("/forge-")] + p1;
    assert p0[1..] == p1;
    assert Fill(p0, args) == Some("/forge-" + (mc + ("-" + u3)));
    assert p0 == [Text("/forge-"), Field(2), Text("-"), Field(3), Text("-installer.jar")];
    assert "/forge-" + (mc + ("-" + u3)) == "/forge-" + mc + "-" + forge + "-installer.jar";
  }

  /** The jar the Forge installer leaves in the installation directory. */
  function ShimJarName(mcVersion: string, forgeVersion: string): string
  {
    "forge-" + mcVersion + "-" + forgeVersion + "-shim.jar"
  }

  /**
   * The optional step after the installer has run, on the names in the
   * installation directory: when the shim jar is there it is renamed to
   * server.jar, replacing any earlier server.jar; when it is not, nothing
   * changes. No other name is touched.
   */
  function RenameShimJar(files: set<string>, mcVersion: string, forgeVersion: string): (after: set<string>)
    ensures ShimJarName(mcVersion, forgeVersion) in files ==>
              ServerJarName in after && ShimJarName(mcVersion, forgeVersion) !in after
    ensures ShimJarName(mcVersion, forgeVersion) !in files ==> after == files
    ensures ServerJarName in after <==> ServerJarName in files || ShimJarName(mcVersion, forgeVersion) in files
    ensures forall f :: f != ShimJarName(mcVersion, forgeVersion) && f != ServerJarName ==> (f in after <==> f in files)
  {
    var shim := ShimJarName(mcVersion, forgeVersion);
    assert shim != ServerJarName by {
      assert shim[0] == 'f';
      assert ServerJarName[0] == 's';
    }
    if shim in files then files - {shim} + {ServerJarName} else files
  }
}

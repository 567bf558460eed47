/** The tool-texture table: the level editor's `tools/...` materials are renamed to the
    target engine's `system/...` materials; every other material is written as it is. */
module Materials {
  import opened Text

  /** The renamed tool textures, keyed by the lower-cased material name. */
  const ToolsRemap: map<string, string> := map[
    "tools/toolshint" := "system/hint",
    "tools/toolsnodraw" := "system/caulk",
    "tools/toolsplayerclip" := "system/clip",
    "tools/toolsclip" := "system/clip",
    "tools/toolstrigger" := "system/trigger",
    "tools/toolsteleport" := "system/trigger",
    "tools/toolstrigger_black" := "system/trigger",
    "tools/toolsinvisible" := "system/skip",
    "tools/toolsskip" := "system/skip",
    "tools/toolsareaportal" := "system/areaportal"
  ]

  /** Tool textures the switch names but deliberately leaves as they are. */
  const KeptTools: set<string> := {"tools/toolsblocklight", "tools/toolsskybox"}

  const ToolsPrefix := "tools/"

  /** The material written for a side: a name starting with `tools/` (in any case) is looked
      up lower-cased in the table; a name the table lacks, and every other name, is kept in
      its original case. */
  function RemapMaterial(m: string): (r: string)
    ensures !StartsWithIgnoreCase(m, ToolsPrefix) ==> r == m
    ensures r == m || r in ToolsRemap.Values
    ensures r != m ==> Lower(m) in ToolsRemap && r == ToolsRemap[Lower(m)]
  {
    if StartsWithIgnoreCase(m, ToolsPrefix) then
      var key := Lower(m);
      if key in ToolsRemap then ToolsRemap[key] else m
    else m
  }

  /** Every table key starts with the prefix, so a name that lower-cases to a key passes the
      case-insensitive prefix test. */
  lemma KeyHasToolsPrefix(m: string)
    requires Lower(m) in ToolsRemap
    ensures StartsWithIgnoreCase(m, ToolsPrefix)
  {
    var key := Lower(m);
    assert key[..6] == ToolsPrefix;
    LowerPrefix(m, 6);
  }

  /** The prefix test is subsumed by the lookup: the renaming is exactly a table lookup on
      the lower-cased name, falling back to the name itself. */
  lemma RemapIsLookup(m: string)
    ensures RemapMaterial(m) == if Lower(m) in ToolsRemap then ToolsRemap[Lower(m)] else m
  {
    if Lower(m) in ToolsRemap {
      KeyHasToolsPrefix(m);
    }
  }

  /** Case does not matter: names equal up to ASCII case are renamed alike when either is in
      the table. */
  lemma RemapIgnoresCase(m1: string, m2: string)
    requires Lower(m1) == Lower(m2) && Lower(m1) in ToolsRemap
    ensures RemapMaterial(m1) == RemapMaterial(m2)
  {
    RemapIsLookup(m1);
    RemapIsLookup(m2);
  }

  /** The two kept tool textures and every name outside the table are written unchanged. */
  lemma KeptToolsUnchanged(m: string)
    requires Lower(m) in KeptTools || Lower(m) !in ToolsRemap
    ensures RemapMaterial(m) == m
  {
    RemapIsLookup(m);
  }

  /** No target name starts with `tools/`, so renaming twice is renaming once. */
  lemma RemapIdempotent(m: string)
    ensures RemapMaterial(RemapMaterial(m)) == RemapMaterial(m)
  {
    var r := RemapMaterial(m);
    if r != m {
      assert r in ToolsRemap.Values;
      assert r == "system/hint" || r == "system/caulk" || r == "system/clip"
          || r == "system/trigger" || r == "system/skip" || r == "system/areaportal";
      assert Lower(r[..6])[0] == 's';
    }
  }
}

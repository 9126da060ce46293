/** Where a bake is saved: `SAVE_DIR + "/" + mesh name with spaces replaced + ".asset"`. */
module AssetNaming {

  const SaveDir: string := "Assets/PointCloudBakes"
  const Extension: string := ".asset"

  /** `string.Replace(" ", "_")`. */
  function ReplaceSpaces(s: string): (r: string)
    ensures |r| == |s|
    ensures forall i :: 0 <= i < |s| ==> r[i] == (if s[i] == ' ' then '_' else s[i])
  {
    if |s| == 0 then "" else [if s[0] == ' ' then '_' else s[0]] + ReplaceSpaces(s[1..])
  }

  /** The rewritten name has no space, keeps every other character in place, and rewriting twice
      is the same as rewriting once. */
  lemma ReplaceSpacesProperties(s: string)
    ensures ' ' !in ReplaceSpaces(s)
    ensures forall i :: 0 <= i < |s| && s[i] != ' ' ==> ReplaceSpaces(s)[i] == s[i]
    ensures ReplaceSpaces(ReplaceSpaces(s)) == ReplaceSpaces(s)
  {
  }

  /** The asset path: the save directory, a slash, the rewritten name and the extension, with no
      space anywhere in it. */
  function AssetPath(meshName: string): (path: string)
    ensures |path| == |SaveDir| + 1 + |meshName| + |Extension|
    ensures path[..|SaveDir|] == SaveDir && path[|SaveDir|] == '/'
    ensures path[|SaveDir| + 1 .. |path| - |Extension|] == ReplaceSpaces(meshName)
    ensures path[|path| - |Extension|..] == Extension
    ensures ' ' !in path
  {
    ReplaceSpacesProperties(meshName);
    SaveDir + "/" + ReplaceSpaces(meshName) + Extension
  }

  /** Two meshes get the same asset path exactly when their names agree after the rewrite, so a mesh
      named "a b" and one named "a_b" are saved to the same asset. */
  lemma AssetPathSameIff(n1: string, n2: string)
    ensures AssetPath(n1) == AssetPath(n2) <==> ReplaceSpaces(n1) == ReplaceSpaces(n2)
    ensures AssetPath("a b") == AssetPath("a_b")
  {
    var p1, p2 := AssetPath(n1), AssetPath(n2);
    if p1 == p2 {
      assert p1[|SaveDir| + 1 .. |p1| - |Extension|] == p2[|SaveDir| + 1 .. |p2| - |Extension|];
    }
    assert ReplaceSpaces("a b") == "a_b" == ReplaceSpaces("a_b");
  }
}

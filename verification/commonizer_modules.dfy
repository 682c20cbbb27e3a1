/** Building module metadata: one per slot of a module node, holding that
    slot's fragments. */
module CommonizerModules {
  import opened Wrappers
  import opened Cir
  import opened Km
  import opened CommonizedGroups

  predicate StartsWith(s: string, prefix: string) {
    |prefix| <= |s| && s[..|prefix|] == prefix
  }

  predicate EndsWith(s: string, suffix: string) {
    |suffix| <= |s| && s[|s| - |suffix|..] == suffix
  }

  /** Kotlin's `removeSurrounding(prefix, suffix)`: strips both only when the
      string is long enough to hold them apart and has both. */
  function RemoveSurrounding(s: string, prefix: string, suffix: string): string {
    if |prefix| + |suffix| <= |s| && StartsWith(s, prefix) && EndsWith(s, suffix)
    then s[|prefix|..|s| - |suffix|]
    else s
  }

  /** Stripping undoes surrounding. */
  lemma RemoveSurroundingInverse(x: string, prefix: string, suffix: string)
    ensures RemoveSurrounding(prefix + x + suffix, prefix, suffix) == x
  {
    var s := prefix + x + suffix;
    assert s[..|prefix|] == prefix;
    assert s[|s| - |suffix|..] == suffix;
    assert s[|prefix|..|s| - |suffix|] == x;
  }

  /** A string that is not surrounded is left as it is; one that is is
      exactly its stripped self surrounded. */
  lemma RemoveSurroundingCases(s: string, prefix: string, suffix: string)
    ensures RemoveSurrounding(s, prefix, suffix) == s || prefix + RemoveSurrounding(s, prefix, suffix) + suffix == s
    ensures RemoveSurrounding(s, prefix, suffix) != s ==> |RemoveSurrounding(s, prefix, suffix)| == |s| - |prefix| - |suffix|
  {
    if |prefix| + |suffix| <= |s| && StartsWith(s, prefix) && EndsWith(s, suffix) {
      var r := s[|prefix|..|s| - |suffix|];
      assert s == s[..|prefix|] + r + s[|s| - |suffix|..];
    }
  }

  /** A special module name `<name>` loses its angle brackets; `<>` becomes
      empty; a lone `<` is too short to be surrounded. */
  lemma ModuleNameExamples()
    ensures RemoveSurrounding("<stdlib>", "<", ">") == "stdlib"
    ensures RemoveSurrounding("<>", "<", ">") == ""
    ensures RemoveSurrounding("<", "<", ">") == "<"
    ensures RemoveSurrounding("stdlib", "<", ">") == "stdlib"
  {
    StripsStdlib();
    StripsEmpty();
    assert !EndsWith("<", ">");
    assert !StartsWith("stdlib", "<");
  }

  lemma StripsStdlib()
    ensures RemoveSurrounding("<stdlib>", "<", ">") == "stdlib"
  {
    var s := "<stdlib>";
    assert |s| == 8;
    assert s[..1] == "<";
    assert s[7..] == ">";
    assert s[1..7] == "stdlib";
  }

  lemma StripsEmpty()
    ensures RemoveSurrounding("<>", "<", ">") == ""
  {
    var s := "<>";
    assert |s| == 2;
    assert s[..1] == "<";
    assert s[1..] == ">";
  }

  /** `buildModule` for slot `index`: no annotations, and that slot's
      fragments read from an array. */
  function BuildModule(m: Module, index: nat, allFragments: seq<seq<KmModuleFragment>>): (r: Result<KlibModuleMetadata>)
    ensures r.Ok? <==> index < |allFragments|
    ensures r.Fail? ==> r.failure == IndexOutOfBounds
    ensures r.Ok? ==> r.value.fragments == allFragments[index] && r.value.annotations == []
  {
    var name := RemoveSurrounding(m.name, "<", ">");
    if index < |allFragments| then Ok(KlibModuleMetadata(name, allFragments[index], []))
    else Fail(IndexOutOfBounds)
  }

  function BuildModules(n: Node<Module>, allFragments: seq<seq<KmModuleFragment>>): Result<seq<Option<KlibModuleMetadata>>> {
    BuildGroup(n, (m: Module, i: nat) => BuildModule(m, i, allFragments))
  }

  /** Each slot's module metadata holds that slot's fragments, under the
      module's name without its angle brackets. */
  lemma ModuleSlot(n: Node<Module>, allFragments: seq<seq<KmModuleFragment>>, r: seq<Option<KlibModuleMetadata>>, i: nat)
    requires BuildModules(n, allFragments) == Ok(r)
    requires i < Dimension(n)
    ensures |r| == Dimension(n)
    ensures r[i].Some? <==> SlotDeclaration(n, i).Some?
    ensures r[i].Some? ==> && i < |allFragments|
                           && r[i].value.fragments == allFragments[i]
                           && r[i].value.name == RemoveSurrounding(SlotDeclaration(n, i).value.name, "<", ">")
                           && r[i].value.annotations == []
  {
    var build := (m: Module, i: nat) => BuildModule(m, i, allFragments);
    GroupSlot(n, build, r, i);
  }
}

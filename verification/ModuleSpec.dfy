// Module references of the form path or path@version
// (internal/generator/rpcbinding/binding.go, moduleSpec and splitModuleSpec).
module ModuleSpecs {
  import opened Text

  datatype Split = Split(path: string, version: string) | Malformed

  function ModuleSpec(path: string, version: string): string {
    if version == "" then path else path + "@" + version
  }

  function LastIndex(s: string, c: char): (i: int)
    ensures -1 <= i < |s|
    ensures i >= 0 ==> s[i] == c
    ensures forall j :: i < j < |s| ==> s[j] != c
  {
    if s == "" then -1
    else if s[|s| - 1] == c then |s| - 1
    else LastIndex(s[..|s| - 1], c)
  }

  // The splitting; the checks on path and version that follow it are foreign
  // code and only reject.
  function SplitModuleSpec(text: string): Split {
    var spec := Trim(text);
    var index := LastIndex(spec, '@');
    if index < 0 then Split(spec, "")
    else if index == 0 || index == |spec| - 1 then Malformed
    else Split(spec[..index], spec[index + 1..])
  }

  // The spec that generate rebuilds from a stored binding is split back into
  // the stored module and version, for every pair that a split can have
  // produced; and a split loses nothing but surrounding white space.
  lemma ModuleSpecRoundTrip(text: string)
    requires SplitModuleSpec(text).Split?
    ensures var s := SplitModuleSpec(text);
            ModuleSpec(s.path, s.version) == Trim(text) && SplitModuleSpec(ModuleSpec(s.path, s.version)) == s
  {
    hide Trim, LastIndex;
    var spec := Trim(text);
    var index := LastIndex(spec, '@');
    if index > 0 { Rejoin(spec, index); }
    assert Trim(spec) == spec;
  }

  lemma Rejoin(spec: string, index: nat)
    requires index < |spec| && spec[index] == '@'
    ensures spec[..index] + "@" + spec[index + 1..] == spec
  {
  }

  predicate HasAt(s: string) {
    exists i :: 0 <= i < |s| && s[i] == '@'
  }

  // A reference is split at its last "@", is a path without a version when it
  // has none, and is refused exactly when nothing stands before or after it.
  lemma SplitExactly(text: string, path: string, version: string)
    requires Trim(text) == path + "@" + version && !HasAt(version)
    ensures SplitModuleSpec(text) == if path == "" || version == "" then Malformed else Split(path, version)
  {
    hide Trim;
    var spec := Trim(text);
    var index := LastIndex(spec, '@');
    assert spec[|path|] == '@';
    forall j | |path| < j < |spec| ensures spec[j] != '@' { assert spec[j] == version[j - |path| - 1]; }
    assert index == |path|;
    assert spec[..|path|] == path && spec[|path| + 1..] == version;
  }

  lemma NoVersion(text: string)
    requires !HasAt(Trim(text))
    ensures SplitModuleSpec(text) == Split(Trim(text), "")
  {
    hide Trim;
  }
}

/** The directory filter of AP_Module::init: a directory entry names a
    loadable module when the text from its last '.' to its end is exactly
    ".so". Names are the characters of d_name before its terminator. */
module ModuleFiles {
  import opened Hooks

  /** The loadable-module extension, compared case-sensitively. */
  const MODULE_EXTENSION: string := ".so"

  /** The index of the last occurrence of c in s, as strrchr finds it. */
  function LastIndexOf(s: string, c: char): (r: Option<nat>)
    ensures r.Some? ==> r.value < |s| && s[r.value] == c
    ensures r.Some? ==> forall j :: r.value < j < |s| ==> s[j] != c
    ensures r.None? <==> forall j :: 0 <= j < |s| ==> s[j] != c
  {
    if s == [] then None
    else if s[|s| - 1] == c then Some(|s| - 1)
    else LastIndexOf(s[..|s| - 1], c)
  }

  /** The extension of a name: the text from its last '.' on, if it has one. */
  function Extension(name: string): (r: Option<string>)
    ensures r.Some? ==> 1 <= |r.value| <= |name| && r.value == name[|name| - |r.value|..]
    ensures r.Some? ==> r.value[0] == '.' && forall j :: 1 <= j < |r.value| ==> r.value[j] != '.'
    ensures r.None? <==> forall j :: 0 <= j < |name| ==> name[j] != '.'
  {
    match LastIndexOf(name, '.')
    case None => None
    case Some(d) => Some(name[d..])
  }

  /** Whether a name ends with the given suffix. */
  predicate EndsWith(name: string, suffix: string)
  {
    |name| >= |suffix| && name[|name| - |suffix|..] == suffix
  }

  /** The last-dot extension is ".so" exactly when the name ends in ".so". */
  lemma ExtensionIffSuffix(name: string)
    ensures Extension(name) == Some(MODULE_EXTENSION) <==> EndsWith(name, MODULE_EXTENSION)
  {
    var n := |name|;
    if EndsWith(name, MODULE_EXTENSION) {
      assert name[n - 3] == '.' && name[n - 2] == 's' && name[n - 1] == 'o';
      var r := LastIndexOf(name, '.');
      assert r.Some?;
      assert r.value == n - 3;
    }
  }

  /** Whether init hands the entry to module_scan: the text from the last
      '.' on equals ".so". That is exactly "the name ends in .so", an
      independent characterisation of the strrchr/strcmp test. */
  function IsModuleFile(name: string): (r: bool)
    ensures r <==> EndsWith(name, MODULE_EXTENSION)
  {
    ExtensionIffSuffix(name);
    match Extension(name)
    case None => false
    case Some(ext) => ext == MODULE_EXTENSION
  }

  /** The cases the filter is known for: a plain and a double extension are
      taken; a different case, a trailing version number and no dot at all are
      not. */
  lemma FilterExamples()
    ensures IsModuleFile("a.so") && IsModuleFile("b.txt.so")
    ensures !IsModuleFile("c.SO") && !IsModuleFile("x.so.1") && !IsModuleFile("noext")
    ensures !IsModuleFile("b.txt") && !IsModuleFile(".") && !IsModuleFile("..")
  {
    assert EndsWith("a.so", MODULE_EXTENSION);
    assert EndsWith("b.txt.so", MODULE_EXTENSION);
    assert !EndsWith("c.SO", MODULE_EXTENSION) by { assert "c.SO"[1..] != ".so"; }
    assert !EndsWith("x.so.1", MODULE_EXTENSION) by { assert "x.so.1"[3..] != ".so"; }
    assert !EndsWith("noext", MODULE_EXTENSION) by { assert "noext"[2..] != ".so"; }
    assert !EndsWith("b.txt", MODULE_EXTENSION) by { assert "b.txt"[2..] != ".so"; }
  }
}

/**
 * `get_scales`: the module names of the extension files ("scales") the bot loads from
 * its scales directory (`tiktoker/utils/__init__.py`). The directory listing is a
 * parameter.
 */
module Loader {
  import opened Text

  const Package: string := "tiktoker.scales."

  /** The module name for one file name: every `.py` removed, every space made `_`. */
  function ScaleModule(file: string): string {
    Package + ReplaceAll(ReplaceAll(file, ".py", ""), " ", "_")
  }

  /** `m` names the module of `file`: the package, then the file name with every `.py`
      removed, character by character, each space made `_`. */
  predicate NamesModuleOf(m: string, file: string) {
    var d := ReplaceAll(file, ".py", "");
    && |m| == |Package| + |d|
    && m[..|Package|] == Package
    && forall k :: 0 <= k < |d| ==> m[|Package| + k] == (if d[k] == ' ' then '_' else d[k])
  }

  /** One module name per file of the directory, in listing order. */
  function GetScales(files: seq<string>): (r: seq<string>)
    ensures |r| == |files|
    ensures forall i :: 0 <= i < |files| ==> NamesModuleOf(r[i], files[i])
  {
    ScaleModulesNamed(files);
    seq(|files|, i requires 0 <= i < |files| => ScaleModule(files[i]))
  }

  lemma ScaleModulesNamed(files: seq<string>)
    ensures forall i :: 0 <= i < |files| ==> NamesModuleOf(ScaleModule(files[i]), files[i])
  {
    forall i | 0 <= i < |files| ensures NamesModuleOf(ScaleModule(files[i]), files[i]) {
      ScaleModuleSpec(files[i], files[i]);
    }
  }

  /** Replacing a single character keeps the length and changes exactly the positions
      that held it. */
  lemma {:induction false} ReplaceCharSpec(s: string, a: char, b: char)
    ensures |ReplaceAll(s, [a], [b])| == |s|
    ensures forall i :: 0 <= i < |s| ==> ReplaceAll(s, [a], [b])[i] == if s[i] == a then b else s[i]
    decreases |s|
  {
    if |s| >= 1 {
      ReplaceCharSpec(s[1..], a, b);
      assert s[..1] == [s[0]];
    }
  }

  /** A text whose characters never start the pattern is left as it is. */
  lemma {:induction false} ReplaceAbsent(s: string, pat: string, rep: string)
    requires |pat| > 0 && pat[0] !in s
    ensures ReplaceAll(s, pat, rep) == s
    decreases |s|
  {
    if |s| >= |pat| {
      assert s[0] in s;
      assert s[..|pat|][0] == s[0];
      ReplaceAbsent(s[1..], pat, rep);
      assert [s[0]] + s[1..] == s;
    }
  }

  /** Removing `.py` from `<stem>.py` leaves the stem when the stem has no dot. */
  lemma {:induction false} DropPyExtension(stem: string)
    requires '.' !in stem
    ensures ReplaceAll(stem + ".py", ".py", "") == stem
    decreases |stem|
  {
    var f := stem + ".py";
    if stem == [] {
      assert f == ".py";
      assert f[3..] == [];
    } else {
      assert stem[0] in stem;
      assert f[..3][0] == stem[0];
      assert f[1..] == stem[1..] + ".py";
      assert forall c :: c in stem[1..] ==> c in stem;
      DropPyExtension(stem[1..]);
      assert [stem[0]] + stem[1..] == stem;
    }
  }

  /** A module name is the package followed by the file name with `.py` removed and each
      space made `_`, so no space is left; a file `<stem>.py` whose stem has neither dot
      nor space loads as `tiktoker.scales.<stem>`. */
  lemma ScaleModuleSpec(file: string, stem: string)
    ensures NamesModuleOf(ScaleModule(file), file)
    ensures ' ' !in ScaleModule(file)[|Package|..]
    ensures '.' !in stem && ' ' !in stem ==> ScaleModule(stem + ".py") == Package + stem
  {
    var d := ReplaceAll(file, ".py", "");
    ReplaceCharSpec(d, ' ', '_');
    var m := ScaleModule(file);
    assert m[|Package|..] == ReplaceAll(d, " ", "_");
    forall i | 0 <= i < |d| ensures ReplaceAll(d, " ", "_")[i] != ' ' {
    }
    if '.' !in stem && ' ' !in stem {
      DropPyExtension(stem);
      ReplaceAbsent(stem, " ", "_");
    }
  }

  /** Loading a directory of `<stem>.py` files yields `tiktoker.scales.<stem>` for each. */
  lemma GetScalesOfPythonFiles(stems: seq<string>)
    requires forall i :: 0 <= i < |stems| ==> '.' !in stems[i] && ' ' !in stems[i]
    ensures GetScales(seq(|stems|, i requires 0 <= i < |stems| => stems[i] + ".py")) ==
      seq(|stems|, i requires 0 <= i < |stems| => Package + stems[i])
  {
    forall i | 0 <= i < |stems| ensures ScaleModule(stems[i] + ".py") == Package + stems[i] {
      ScaleModuleSpec(stems[i] + ".py", stems[i]);
    }
  }
}

// The schema generator's toKebabCase: interface names such as
// `HeaderNotStrict` become schema file stems such as `header-not-strict`.
// It is three global replacements applied in turn; only ASCII letters are
// affected, as the patterns are ASCII character classes.
module KebabCase {
  predicate IsUpper(c: char) { 'A' <= c <= 'Z' }

  function ToLower(c: char): (r: char)
    ensures !IsUpper(r)
    ensures IsUpper(c) ==> r as int == c as int + 32
    ensures !IsUpper(c) ==> r == c
  {
    if IsUpper(c) then (c as int + 32) as char else c
  }

  /** Lower-cases every ASCII capital, the comparison `/.../i` makes. */
  function Folded(s: string): (r: string)
    ensures |r| == |s|
    ensures forall i :: 0 <= i < |s| ==> r[i] == ToLower(s[i])
  {
    seq(|s|, i requires 0 <= i < |s| => ToLower(s[i]))
  }

  lemma {:induction false} FoldedAppend(a: string, b: string)
    ensures Folded(a + b) == Folded(a) + Folded(b)
  {
  }

  const Target: string := "userscript"
  const Replacement: string := "Userscript"

  /** First step: every case-insensitive occurrence of "UserScript", scanned left to right, becomes "Userscript". */
  function ReplaceUserScript(s: string): (r: string)
    decreases |s|
  {
    if |s| >= |Target| && Folded(s[..|Target|]) == Target then Replacement + ReplaceUserScript(s[|Target|..])
    else if s == [] then []
    else [s[0]] + ReplaceUserScript(s[1..])
  }

  /** The first step only changes the case of letters: same length, same lower-case form. */
  lemma {:induction false} ReplaceKeepsFolded(s: string)
    ensures |ReplaceUserScript(s)| == |s|
    ensures Folded(ReplaceUserScript(s)) == Folded(s)
    decreases |s|
  {
    if |s| >= |Target| && Folded(s[..|Target|]) == Target {
      ReplaceKeepsFolded(s[|Target|..]);
      FoldedAppend(Replacement, ReplaceUserScript(s[|Target|..]));
      FoldedAppend(s[..|Target|], s[|Target|..]);
      assert s == s[..|Target|] + s[|Target|..];
    } else if s != [] {
      ReplaceKeepsFolded(s[1..]);
      FoldedAppend([s[0]], ReplaceUserScript(s[1..]));
      FoldedAppend([s[0]], s[1..]);
      assert s == [s[0]] + s[1..];
    }
  }

  /** Second step: a leading capital is lower-cased, with no dash. */
  function LowerFirst(s: string): (r: string)
    ensures |r| == |s|
    ensures s != [] ==> r[0] == ToLower(s[0]) && r[1..] == s[1..]
  {
    if s == [] then [] else [ToLower(s[0])] + s[1..]
  }

  /** Third step: every capital becomes a dash and its lower-case letter. */
  function Dashed(s: string): (r: string)
  {
    if s == [] then []
    else (if IsUpper(s[0]) then ['-', ToLower(s[0])] else [s[0]]) + Dashed(s[1..])
  }

  function CountUpper(s: string): nat
  {
    if s == [] then 0 else (if IsUpper(s[0]) then 1 else 0) + CountUpper(s[1..])
  }

  /** The third step works character by character: it distributes over concatenation. */
  lemma {:induction false} DashedAppend(a: string, b: string)
    ensures Dashed(a + b) == Dashed(a) + Dashed(b)
  {
    if a == [] {
      assert a + b == b;
    } else {
      assert (a + b)[0] == a[0] && (a + b)[1..] == a[1..] + b;
      DashedAppend(a[1..], b);
    }
  }

  /** Leaves a string with no capitals as it is, and adds one character per capital. */
  lemma {:induction false} DashedShape(s: string)
    ensures |Dashed(s)| == |s| + CountUpper(s)
    ensures CountUpper(s) == 0 ==> Dashed(s) == s
    ensures forall i :: 0 <= i < |Dashed(s)| ==> !IsUpper(Dashed(s)[i])
  {
    if s != [] {
      DashedShape(s[1..]);
      var head := if IsUpper(s[0]) then ['-', ToLower(s[0])] else [s[0]];
      assert Dashed(s) == head + Dashed(s[1..]);
      forall i | 0 <= i < |Dashed(s)| ensures !IsUpper(Dashed(s)[i]) {
        if i >= |head| {
          assert Dashed(s)[i] == Dashed(s[1..])[i - |head|];
        }
      }
    }
  }

  function ToKebabCase(s: string): (r: string)
  {
    Dashed(LowerFirst(ReplaceUserScript(s)))
  }

  /** The result has no capital, and grows by one dash per capital after the first character. */
  lemma KebabShape(s: string)
    ensures forall i :: 0 <= i < |ToKebabCase(s)| ==> !IsUpper(ToKebabCase(s)[i])
    ensures s != [] ==> |ToKebabCase(s)| == |s| + CountUpper(ReplaceUserScript(s)[1..])
    ensures s != [] && !IsUpper(ReplaceUserScript(s)[0]) ==> ToKebabCase(s)[0] == ReplaceUserScript(s)[0]
  {
    ReplaceKeepsFolded(s);
    var t := ReplaceUserScript(s);
    var l := LowerFirst(t);
    DashedShape(l);
    if s != [] {
      assert l == [l[0]] + l[1..];
      DashedAppend([l[0]], l[1..]);
      DashedShape(l[1..]);
    }
  }

  /** A name in which no 'u' is followed by an 's', in either case, has no occurrence to replace. */
  lemma {:induction false} NoTarget(s: string)
    requires forall i :: 0 <= i < |s| - 1 ==> !(ToLower(s[i]) == 'u' && ToLower(s[i + 1]) == 's')
    ensures ReplaceUserScript(s) == s
    decreases |s|
  {
    if |s| >= |Target| {
      assert Folded(s[..|Target|])[0] != 'u' || Folded(s[..|Target|])[1] != 's';
    }
    if s != [] {
      NoTarget(s[1..]);
    }
  }
}

// The file stems the schema generator derives, worked out on the three
// names it converts. The verifier evaluates a function on a literal only a
// few characters deep, so each name is taken apart into short words.
module KebabStems {
  import opened KebabCase

  lemma DashedWords(a: string, b: string, da: string, db: string)
    requires Dashed(a) == da && Dashed(b) == db
    ensures Dashed(a + b) == da + db
  {
    DashedAppend(a, b);
  }

  lemma LowerFirstCapital(c: char, rest: string)
    ensures LowerFirst([c] + rest) == [ToLower(c)] + rest
  {
    assert ([c] + rest)[1..] == rest;
  }

  lemma HeaderWord() ensures Dashed("header") == "header" {}
  lemma NotWord() ensures Dashed("Not") == "-not" {}
  lemma StrictWord() ensures Dashed("Strict") == "-strict" {}
  lemma ConfigWord() ensures Dashed("config") == "config" {}
  lemma UrationWord() ensures Dashed("uration") == "uration" {}

  lemma ConfigurationWord()
    ensures Dashed("configuration") == "configuration"
  {
    ConfigWord();
    UrationWord();
    DashedWords("config", "uration", "config", "uration");
    ConfigurationSplit();
  }

  lemma ConfigurationSplit() ensures "config" + "uration" == "configuration" {}

  lemma NotStrictWords()
    ensures Dashed("NotStrict") == "-not-strict"
  {
    NotWord();
    StrictWord();
    DashedWords("Not", "Strict", "-not", "-strict");
    NotStrictSplit();
  }

  lemma NotStrictSplit() ensures "Not" + "Strict" == "NotStrict" && "-not" + "-strict" == "-not-strict" {}

  // Each name: no occurrence of "UserScript", the leading capital lowered, then the dashes.
  lemma HeaderStrictUnreplaced() ensures ReplaceUserScript("HeaderStrict") == "HeaderStrict" { NoTarget("HeaderStrict"); }
  lemma HeaderStrictLowered() ensures LowerFirst("HeaderStrict") == "headerStrict" {}
  lemma HeaderStrictSplit() ensures "header" + "Strict" == "headerStrict" && "header" + "-strict" == "header-strict" {}
  lemma HeaderStrictDashed()
    ensures Dashed("headerStrict") == "header-strict"
  {
    HeaderWord();
    StrictWord();
    DashedWords("header", "Strict", "header", "-strict");
    HeaderStrictSplit();
  }

  lemma HeaderNotStrictUnreplaced() ensures ReplaceUserScript("HeaderNotStrict") == "HeaderNotStrict" { NoTarget("HeaderNotStrict"); }
  lemma HeaderNotStrictLowered() ensures LowerFirst("HeaderNotStrict") == "headerNotStrict" {}
  lemma HeaderNotStrictSplit() ensures "header" + "NotStrict" == "headerNotStrict" && "header" + "-not-strict" == "header-not-strict" {}
  lemma HeaderNotStrictDashed()
    ensures Dashed("headerNotStrict") == "header-not-strict"
  {
    HeaderWord();
    NotStrictWords();
    DashedWords("header", "NotStrict", "header", "-not-strict");
    HeaderNotStrictSplit();
  }

  lemma ConfigurationNotStrictUnreplaced() ensures ReplaceUserScript("ConfigurationNotStrict") == "ConfigurationNotStrict" { NoTarget("ConfigurationNotStrict"); }
  lemma ConfigurationNotStrictLowered()
    ensures LowerFirst("ConfigurationNotStrict") == "configurationNotStrict"
  {
    ConfigurationNotStrictHead();
    LowerFirstCapital('C', "onfigurationNotStrict");
  }
  lemma ConfigurationNotStrictHead() ensures "ConfigurationNotStrict" == ['C'] + "onfigurationNotStrict" && "configurationNotStrict" == ['c'] + "onfigurationNotStrict" {}
  lemma ConfigurationNotStrictSplit() ensures "configuration" + "NotStrict" == "configurationNotStrict" && "configuration" + "-not-strict" == "configuration-not-strict" {}
  lemma ConfigurationNotStrictDashed()
    ensures Dashed("configurationNotStrict") == "configuration-not-strict"
  {
    ConfigurationWord();
    NotStrictWords();
    DashedWords("configuration", "NotStrict", "configuration", "-not-strict");
    ConfigurationNotStrictSplit();
  }

  /**
   * Worked examples: the three names the schema generator converts give the
   * file stems the schema index imports. The general property of the
   * conversion is KebabShape; these fix its exact output on those inputs.
   */
  lemma HeaderStrictStem()
    ensures ToKebabCase("HeaderStrict") == "header-strict"
  {
    HeaderStrictUnreplaced();
    HeaderStrictLowered();
    HeaderStrictDashed();
  }

  lemma HeaderNotStrictStem()
    ensures ToKebabCase("HeaderNotStrict") == "header-not-strict"
  {
    HeaderNotStrictUnreplaced();
    HeaderNotStrictLowered();
    HeaderNotStrictDashed();
  }

  lemma ConfigurationNotStrictStem()
    ensures ToKebabCase("ConfigurationNotStrict") == "configuration-not-strict"
  {
    ConfigurationNotStrictUnreplaced();
    ConfigurationNotStrictLowered();
    ConfigurationNotStrictDashed();
  }
}

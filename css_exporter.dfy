/**
 * The CSS exporter: one rule per frame, in frame order, separated by a
 * blank line. The class name is the frame name with every character
 * outside `[a-zA-Z0-9-_]` replaced by `-`.
 */
module CssExporter {
  import opened Js
  import opened ExportTypes

  const Info := ExporterInfo("CSS (Simple)", "css", CssSimple)

  const RotatedNote := "/* Rotated in atlas! Requires transform to display correctly */"

  predicate IsClassChar(c: char) {
    'a' <= c <= 'z' || 'A' <= c <= 'Z' || '0' <= c <= '9' || c == '-' || c == '_'
  }

  /** `name.replaceAll(/[^a-zA-Z0-9-_]/g, '-')`. */
  function Sanitize(name: string): (r: string)
    ensures |r| == |name|
    ensures forall i :: 0 <= i < |name| ==> r[i] == (if IsClassChar(name[i]) then name[i] else '-')
  {
    if name == [] then [] else [if IsClassChar(name[0]) then name[0] else '-'] + Sanitize(name[1..])
  }

  function ClassName(name: string): (c: string)
    ensures |c| == |name| + 7 && c[..7] == "sprite-" && c[7..] == Sanitize(name)
  {
    "sprite-" + Sanitize(name)
  }

  /** `parts.join(sep)`. */
  function Join(parts: seq<string>, sep: string): (r: string)
    ensures |parts| == 0 ==> r == ""
    ensures |parts| == 1 ==> r == parts[0]
  {
    if |parts| == 0 then ""
    else if |parts| == 1 then parts[0]
    else Join(parts[..|parts| - 1], sep) + sep + parts[|parts| - 1]
  }

  /** A joined text starts with its first part. */
  lemma {:induction false} JoinStartsWithFirst(parts: seq<string>, sep: string)
    requires |parts| > 0
    ensures parts[0] <= Join(parts, sep)
    decreases |parts|
  {
    if |parts| > 1 {
      var init := parts[..|parts| - 1];
      JoinStartsWithFirst(init, sep);
      assert init[0] == parts[0];
      var rest := sep + parts[|parts| - 1];
      assert Join(parts, sep) == Join(init, sep) + rest;
      assert Join(parts, sep)[..|parts[0]|] == Join(init, sep)[..|parts[0]|];
    }
  }

  /** The lines of the rule written for one frame: the file-name comment, the
      class selector, the frame's size and offset in the atlas, the atlas
      image and size, and the rotation note exactly for a rotated frame. */
  function RuleLines(f: SpriteFrame, fileName: string, meta: Meta): (lines: seq<string>)
    ensures |lines| == 10
    ensures lines[0] == "/* " + fileName + " */"
    ensures lines[1] == "." + ClassName(f.name) + " {" && lines[9] == "}"
    ensures lines[8] == "    " + RotatedNote <==> f.rotated
    ensures !f.rotated ==> lines[8] == "    "
  {
    [ "/* " + fileName + " */",
      "." + ClassName(f.name) + " {",
      "    width: " + IntToString(f.frame.width) + "px;",
      "    height: " + IntToString(f.frame.height) + "px;",
      "    background-image: url('" + meta.image + "');",
      "    background-position: -" + IntToString(f.frame.x) + "px -" + IntToString(f.frame.y) + "px;",
      "    background-size: " + IntToString(meta.size.w) + "px " + IntToString(meta.size.h) + "px;",
      "    display: inline-block;",
      "    " + (if f.rotated then RotatedNote else ""),
      "}" ]
  }

  /** The rule's text: its lines joined by newlines. It opens with the
      file-name comment and closes with the rule's `}`. */
  function Rule(f: SpriteFrame, fileName: string, meta: Meta): (r: string)
    ensures "/* " + fileName + " */" <= r
    ensures |r| > 0 && r[|r| - 1] == '}'
  {
    JoinStartsWithFirst(RuleLines(f, fileName, meta), "\n");
    Join(RuleLines(f, fileName, meta), "\n")
  }

  /** The rules, one per frame, in frame order. */
  function Rules(data: PackResultData, fileName: string): (rules: seq<string>)
    ensures |rules| == |data.frames|
    ensures forall i :: 0 <= i < |rules| ==> rules[i] == Rule(data.frames[i], fileName, data.meta)
  {
    seq(|data.frames|, i requires 0 <= i < |data.frames| => Rule(data.frames[i], fileName, data.meta))
  }

  /** `CssExporter.export(data, fileName)`: no frames give the empty text, one
      frame gives its rule alone, and any text with frames starts with the
      first rule's file-name comment. */
  function Export(data: PackResultData, fileName: string): (text: string)
    ensures data.frames == [] ==> text == ""
    ensures |data.frames| == 1 ==> text == Rule(data.frames[0], fileName, data.meta)
    ensures data.frames != [] ==> "/* " + fileName + " */" <= text
  {
    var rules := Rules(data, fileName);
    if rules == [] then Join(rules, "\n\n")
    else
      JoinStartsWithFirst(rules, "\n\n");
      Join(rules, "\n\n")
  }

  // ---------------------------------------------------------------------
  // Class names

  /** Sanitising leaves only class-name characters. */
  lemma SanitizeOnlyClassChars(name: string)
    ensures forall i :: 0 <= i < |Sanitize(name)| ==> IsClassChar(Sanitize(name)[i])
  {
  }

  /** A name made of class-name characters is kept as it is. */
  lemma SanitizeKeepsCleanName(name: string)
    requires forall i :: 0 <= i < |name| ==> IsClassChar(name[i])
    ensures Sanitize(name) == name
  {
  }

  lemma SanitizeIdempotent(name: string)
    ensures Sanitize(Sanitize(name)) == Sanitize(name)
  {
    SanitizeOnlyClassChars(name);
    SanitizeKeepsCleanName(Sanitize(name));
  }

  /** The class name starts with `sprite-`, is made of class-name characters
      only, and is seven characters longer than the frame name. */
  lemma ClassNameWellFormed(name: string)
    ensures var c := ClassName(name);
      && |c| == |name| + 7
      && c[..7] == "sprite-"
      && forall i :: 0 <= i < |c| ==> IsClassChar(c[i])
  {
    var c := ClassName(name);
    forall i | 0 <= i < |c| ensures IsClassChar(c[i]) {
      if i >= 7 {
        assert c[i] == Sanitize(name)[i - 7];
      }
    }
  }

  // ---------------------------------------------------------------------
  // The whole text

  lemma JoinNonEmpty(parts: seq<string>, sep: string)
    requires |parts| > 0 && parts[|parts| - 1] != []
    ensures Join(parts, sep) != []
  {
  }

  /** The text is empty exactly when there are no frames. */
  lemma ExportEmptyIff(data: PackResultData, fileName: string)
    ensures Export(data, fileName) == [] <==> data.frames == []
  {
    if data.frames != [] {
      var rules := Rules(data, fileName);
      var last := data.frames[|data.frames| - 1];
      var lines := RuleLines(last, fileName, data.meta);
      JoinNonEmpty(lines, "\n");
      JoinNonEmpty(rules, "\n\n");
    }
  }

  /** Adding a frame adds its rule at the end, after a blank line. */
  lemma ExportAppend(frames: seq<SpriteFrame>, f: SpriteFrame, meta: Meta, fileName: string)
    requires frames != []
    ensures Export(PackResultData(frames + [f], meta), fileName)
         == Export(PackResultData(frames, meta), fileName) + "\n\n" + Rule(f, fileName, meta)
  {
    var longer, shorter := PackResultData(frames + [f], meta), PackResultData(frames, meta);
    var all, prev := Rules(longer, fileName), Rules(shorter, fileName);
    assert |all| >= 2;
    assert all[..|all| - 1] == prev;
    assert all[|all| - 1] == Rule(f, fileName, meta);
    assert Join(all, "\n\n") == Join(prev, "\n\n") + "\n\n" + Rule(f, fileName, meta);
    assert Export(longer, fileName) == Join(all, "\n\n");
    assert Export(shorter, fileName) == Join(prev, "\n\n");
  }

  /** The file name is written in the leading comment and nowhere else. */
  lemma FileNameOnlyInComment(f: SpriteFrame, meta: Meta, a: string, b: string)
    ensures RuleLines(f, a, meta)[0] == "/* " + a + " */"
    ensures RuleLines(f, a, meta)[1..] == RuleLines(f, b, meta)[1..]
  {
  }

  // ---------------------------------------------------------------------
  // The rule keeps the frame's geometry

  /** The number written right after `prefix` reads back with `parseInt`. */
  lemma NumberAfter(line: string, prefix: string, n: int, rest: string)
    requires rest != [] && rest[0] == 'p'
    requires line == prefix + IntToString(n) + rest
    ensures ParseInt(line[|prefix|..]) == Some(n)
  {
    assert line[|prefix|..] == IntToString(n) + rest;
    ParseIntBeforeText(n, rest);
  }

  /** The width line holds the frame's width. */
  lemma RuleReadsWidth(f: SpriteFrame, fileName: string, meta: Meta)
    ensures ParseInt(RuleLines(f, fileName, meta)[2][11..]) == Some(f.frame.width)
  {
    var line := RuleLines(f, fileName, meta)[2];
    NumberAfter(line, "    width: ", f.frame.width, "px;");
  }

  /** The height line holds the frame's height. */
  lemma RuleReadsHeight(f: SpriteFrame, fileName: string, meta: Meta)
    ensures ParseInt(RuleLines(f, fileName, meta)[3][12..]) == Some(f.frame.height)
  {
    var line := RuleLines(f, fileName, meta)[3];
    NumberAfter(line, "    height: ", f.frame.height, "px;");
  }

  /** The `background-position` line holds the frame's x and y. */
  lemma RuleReadsPosition(f: SpriteFrame, fileName: string, meta: Meta)
    ensures var line := RuleLines(f, fileName, meta)[5];
      && ParseInt(line[26..]) == Some(f.frame.x)
      && ParseInt(line[26 + |IntToString(f.frame.x)| + 4..]) == Some(f.frame.y)
  {
    var line := RuleLines(f, fileName, meta)[5];
    var x, y := IntToString(f.frame.x), IntToString(f.frame.y);
    var pos := "    background-position: -";
    NumberAfter(line, pos, f.frame.x, "px -" + y + "px;");
    NumberAfter(line, pos + x + "px -", f.frame.y, "px;");
  }

  /** The `background-size` line holds the atlas width and height. */
  lemma RuleReadsAtlasSize(f: SpriteFrame, fileName: string, meta: Meta)
    ensures var line := RuleLines(f, fileName, meta)[6];
      && ParseInt(line[21..]) == Some(meta.size.w)
      && ParseInt(line[21 + |IntToString(meta.size.w)| + 3..]) == Some(meta.size.h)
  {
    var line := RuleLines(f, fileName, meta)[6];
    var w, h := IntToString(meta.size.w), IntToString(meta.size.h);
    var size := "    background-size: ";
    NumberAfter(line, size, meta.size.w, "px " + h + "px;");
    NumberAfter(line, size + w + "px ", meta.size.h, "px;");
  }

  /** The `url()` of the `background-image` line is the atlas image. */
  lemma RuleReadsImage(f: SpriteFrame, fileName: string, meta: Meta)
    ensures var line := RuleLines(f, fileName, meta)[4];
      |line| == 27 + |meta.image| + 3 && line[27..27 + |meta.image|] == meta.image
  {
    var line := RuleLines(f, fileName, meta)[4];
    var url := "    background-image: url('";
    assert line == url + meta.image + "');";
    assert (url + meta.image + "');")[27..27 + |meta.image|] == meta.image;
  }

  predicate IsNumberChar(c: char) {
    IsDigit(c) || c == '-'
  }

  lemma IntToStringChars(n: int)
    ensures forall i :: 0 <= i < |IntToString(n)| ==> IsNumberChar(IntToString(n)[i])
  {
  }

  lemma CancelPrefix(p: string, a: string, b: string)
    requires p + a == p + b
    ensures a == b
  {
    assert a == (p + a)[|p|..];
    assert b == (p + b)[|p|..];
  }

  /** Length of the run of number characters `s` starts with. */
  function NumberRunLength(s: string): nat {
    if s == [] || !IsNumberChar(s[0]) then 0 else 1 + NumberRunLength(s[1..])
  }

  lemma {:induction false} NumberRunOf(a: string, s: string)
    requires forall i :: 0 <= i < |a| ==> IsNumberChar(a[i])
    requires s != [] && !IsNumberChar(s[0])
    ensures NumberRunLength(a + s) == |a|
  {
    if a != [] {
      assert (a + s)[1..] == a[1..] + s;
      NumberRunOf(a[1..], s);
    }
  }

  /** Number text followed by text that starts with another character can be
      split in only one way. */
  lemma NumberThenText(a: string, b: string, s: string, t: string)
    requires forall i :: 0 <= i < |a| ==> IsNumberChar(a[i])
    requires forall i :: 0 <= i < |b| ==> IsNumberChar(b[i])
    requires s != [] && !IsNumberChar(s[0]) && t != [] && !IsNumberChar(t[0])
    requires a + s == b + t
    ensures a == b && s == t
  {
    NumberRunOf(a, s);
    NumberRunOf(b, t);
    assert a == (a + s)[..|a|];
    assert b == (b + t)[..|b|];
    CancelPrefix(a, s, t);
  }

  /** `prefix + ${m} + rest` determines `m` when `rest` starts with a letter. */
  lemma NumberField(prefix: string, m: int, n: int, s: string, t: string)
    requires s != [] && !IsNumberChar(s[0]) && t != [] && !IsNumberChar(t[0])
    requires prefix + IntToString(m) + s == prefix + IntToString(n) + t
    ensures m == n && s == t
  {
    var a, b := IntToString(m), IntToString(n);
    IntToStringChars(m);
    IntToStringChars(n);
    NumberTextAfterPrefix(prefix, a, b, s, t);
    IntToStringInjective(m, n);
  }

  lemma NumberTextAfterPrefix(prefix: string, a: string, b: string, s: string, t: string)
    requires forall i :: 0 <= i < |a| ==> IsNumberChar(a[i])
    requires forall i :: 0 <= i < |b| ==> IsNumberChar(b[i])
    requires s != [] && !IsNumberChar(s[0]) && t != [] && !IsNumberChar(t[0])
    requires prefix + a + s == prefix + b + t
    ensures a == b && s == t
  {
    assert prefix + a + s == prefix + (a + s);
    assert prefix + b + t == prefix + (b + t);
    CancelPrefix(prefix, a + s, b + t);
    NumberThenText(a, b, s, t);
  }

  /** Two frames that get the same rule have the same position, size,
      rotation and class name: the rule loses none of them. */
  lemma RuleDeterminesFrame(f: SpriteFrame, g: SpriteFrame, fileName: string, meta: Meta)
    requires RuleLines(f, fileName, meta) == RuleLines(g, fileName, meta)
    ensures f.frame == g.frame && f.rotated == g.rotated
    ensures ClassName(f.name) == ClassName(g.name)
  {
    var lf := RuleLines(f, fileName, meta);
    var lg := RuleLines(g, fileName, meta);
    assert lf[1] == lg[1];
    assert "." + ClassName(f.name) + " {" == "." + (ClassName(f.name) + " {");
    assert "." + ClassName(g.name) + " {" == "." + (ClassName(g.name) + " {");
    CancelPrefix(".", ClassName(f.name) + " {", ClassName(g.name) + " {");
    assert ClassName(f.name) == (ClassName(f.name) + " {")[..|ClassName(f.name)|];
    assert ClassName(g.name) == (ClassName(g.name) + " {")[..|ClassName(g.name)|];

    assert lf[2] == lg[2];
    NumberField("    width: ", f.frame.width, g.frame.width, "px;", "px;");
    assert lf[3] == lg[3];
    NumberField("    height: ", f.frame.height, g.frame.height, "px;", "px;");
    assert lf[5] == lg[5];
    var py := "px -";
    assert lf[5] == "    background-position: -" + IntToString(f.frame.x) + (py + IntToString(f.frame.y) + "px;");
    assert lg[5] == "    background-position: -" + IntToString(g.frame.x) + (py + IntToString(g.frame.y) + "px;");
    NumberField("    background-position: -", f.frame.x, g.frame.x,
      py + IntToString(f.frame.y) + "px;", py + IntToString(g.frame.y) + "px;");
    NumberField(py, f.frame.y, g.frame.y, "px;", "px;");
    assert lf[8] == lg[8];
    assert |lf[8]| == 4 + (if f.rotated then |RotatedNote| else 0);
  }
}

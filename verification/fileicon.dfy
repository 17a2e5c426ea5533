/** The icon chosen for a file in the list: a fixed order of tests on the
    sensitivity flag, the MIME type and the lower-cased extension. */
module FileIcon {
  import opened Types
  import opened Text

  datatype Icon = ShieldAlert | Image | Video | Music | Archive | Code | Document | Generic

  const ImageExtensions: seq<string> := ["jpg", "png", "gif", "svg", "webp"]
  const VideoExtensions: seq<string> := ["mp4", "mov", "avi", "mkv"]
  const AudioExtensions: seq<string> := ["mp3", "wav", "ogg"]
  const ArchiveExtensions: seq<string> := ["zip", "rar", "7z", "tar", "gz"]
  const CodeExtensions: seq<string> := ["js", "ts", "tsx", "html", "css", "json", "py"]
  const DocumentExtensions: seq<string> := ["pdf", "doc", "docx", "txt", "md"]

  /** The last piece of `s.split('.')`: the longest suffix without a dot. */
  function AfterLastDot(s: string): (r: string)
    ensures |r| <= |s| && r == s[|s| - |r|..]
    ensures '.' !in r
    ensures |r| < |s| ==> s[|s| - |r| - 1] == '.'
  {
    if s == [] then []
    else if s[|s| - 1] == '.' then []
    else AfterLastDot(s[..|s| - 1]) + [s[|s| - 1]]
  }

  /** The extension the icon tests look at. */
  function Extension(name: string): string {
    Lower(AfterLastDot(name))
  }

  /** The extension is what follows the last dot. */
  lemma {:induction false} AfterDot(base: string, ext: string)
    requires '.' !in ext
    ensures AfterLastDot(base + "." + ext) == ext
    decreases |ext|
  {
    var s := base + "." + ext;
    if ext != [] {
      var init := ext[..|ext| - 1];
      assert s[..|s| - 1] == base + "." + init;
      assert ext[|ext| - 1] in ext;
      AfterDot(base, init);
      assert ext == init + [ext[|ext| - 1]];
    }
  }

  lemma ExtensionAfterDot(base: string, ext: string)
    requires '.' !in ext
    ensures Extension(base + "." + ext) == Lower(ext)
  {
    AfterDot(base, ext);
  }

  /** A name without a dot is its own extension. */
  lemma {:induction false} WithoutDot(name: string)
    requires '.' !in name
    ensures AfterLastDot(name) == name
    decreases |name|
  {
    if name != [] {
      var init := name[..|name| - 1];
      assert name[|name| - 1] in name;
      assert forall c :: c in init ==> c in name;
      WithoutDot(init);
      assert name == init + [name[|name| - 1]];
    }
  }

  lemma ExtensionWithoutDot(name: string)
    requires '.' !in name
    ensures Extension(name) == Lower(name)
  {
    WithoutDot(name);
  }

  /** The icon for a file with MIME type `mime` and name `name`. */
  function IconFor(mime: string, name: string, isSensitive: bool): Icon {
    if isSensitive then ShieldAlert
    else
      var ext := Extension(name);
      if StartsWith(mime, "image/") || ext in ImageExtensions then Image
      else if StartsWith(mime, "video/") || ext in VideoExtensions then Video
      else if StartsWith(mime, "audio/") || ext in AudioExtensions then Music
      else if ext in ArchiveExtensions then Archive
      else if ext in CodeExtensions then Code
      else if ext in DocumentExtensions then Document
      else Generic
  }

  // The same decision written as a table of rules tried in order.

  /** A category: the icon, the MIME prefix that selects it if any, and its
      extensions. */
  datatype Rule = Rule(icon: Icon, mimePrefix: Option<string>, extensions: seq<string>)

  const Rules: seq<Rule> := [
    Rule(Image, Some("image/"), ImageExtensions),
    Rule(Video, Some("video/"), VideoExtensions),
    Rule(Music, Some("audio/"), AudioExtensions),
    Rule(Archive, None, ArchiveExtensions),
    Rule(Code, None, CodeExtensions),
    Rule(Document, None, DocumentExtensions)
  ]

  predicate Matches(rule: Rule, mime: string, ext: string) {
    (rule.mimePrefix.Some? && StartsWith(mime, rule.mimePrefix.value)) || ext in rule.extensions
  }

  /** The icon of the first rule that matches, or the generic one. */
  function FirstMatching(rules: seq<Rule>, mime: string, ext: string): Icon {
    if rules == [] then Generic
    else if Matches(rules[0], mime, ext) then rules[0].icon
    else FirstMatching(rules[1..], mime, ext)
  }

  /** The chain of tests is the rule table tried in order, after the
      sensitivity flag, which wins over everything else. */
  lemma IconForFollowsRules(mime: string, name: string, isSensitive: bool)
    ensures IconFor(mime, name, isSensitive) ==
      if isSensitive then ShieldAlert else FirstMatching(Rules, mime, Extension(name))
  {
    var ext := Extension(name);
    var t5 := [Rule(Document, None, DocumentExtensions)];
    var t4 := [Rule(Code, None, CodeExtensions)] + t5;
    var t3 := [Rule(Archive, None, ArchiveExtensions)] + t4;
    var t2 := [Rule(Music, Some("audio/"), AudioExtensions)] + t3;
    var t1 := [Rule(Video, Some("video/"), VideoExtensions)] + t2;
    var t0 := [Rule(Image, Some("image/"), ImageExtensions)] + t1;
    assert t0 == Rules;
    FirstMatchingCons(t5[0], [], mime, ext);
    assert t5 == [t5[0]] + [];
    FirstMatchingCons(t4[0], t5, mime, ext);
    FirstMatchingCons(t3[0], t4, mime, ext);
    FirstMatchingCons(t2[0], t3, mime, ext);
    FirstMatchingCons(t1[0], t2, mime, ext);
    FirstMatchingCons(t0[0], t1, mime, ext);
  }

  lemma FirstMatchingCons(r: Rule, rest: seq<Rule>, mime: string, ext: string)
    ensures FirstMatching([r] + rest, mime, ext) == if Matches(r, mime, ext) then r.icon else FirstMatching(rest, mime, ext)
  {
    assert ([r] + rest)[1..] == rest;
  }

  /** A table whose icons are distinct and never the generic one. */
  predicate DistinctIcons(rules: seq<Rule>) {
    (forall i, j :: 0 <= i < j < |rules| ==> rules[i].icon != rules[j].icon)
    && forall i :: 0 <= i < |rules| ==> rules[i].icon != Generic
  }

  /** In such a table the icon names the first matching rule, and the generic
      icon means that no rule matched. */
  lemma {:induction false} FirstMatchingIsFirst(rules: seq<Rule>, mime: string, ext: string, k: nat)
    requires DistinctIcons(rules) && k < |rules|
    ensures FirstMatching(rules, mime, ext) == rules[k].icon <==>
      Matches(rules[k], mime, ext) && forall j :: 0 <= j < k ==> !Matches(rules[j], mime, ext)
    ensures FirstMatching(rules, mime, ext) == Generic <==> forall j :: 0 <= j < |rules| ==> !Matches(rules[j], mime, ext)
  {
    var rest := rules[1..];
    assert DistinctIcons(rest) by {
      forall i, j | 0 <= i < j < |rest| ensures rest[i].icon != rest[j].icon {
        assert rest[i] == rules[i + 1] && rest[j] == rules[j + 1];
      }
    }
    if k > 0 {
      FirstMatchingIsFirst(rest, mime, ext, k - 1);
      assert forall j :: 0 < j < k ==> rules[j] == rest[j - 1];
    } else if |rest| > 0 {
      FirstMatchingIsFirst(rest, mime, ext, 0);
      assert forall j :: 0 < j < |rules| ==> rules[j] == rest[j - 1];
      if FirstMatching(rest, mime, ext) != Generic {
        var i :| 0 <= i < |rest| && FirstMatching(rest, mime, ext) == rest[i].icon by {
          FirstMatchingIcon(rest, mime, ext);
        }
        assert rest[i] == rules[i + 1];
      }
    }
  }

  /** The result is the generic icon or one of the table's. */
  lemma {:induction false} FirstMatchingIcon(rules: seq<Rule>, mime: string, ext: string)
    ensures FirstMatching(rules, mime, ext) == Generic
      || exists i :: 0 <= i < |rules| && FirstMatching(rules, mime, ext) == rules[i].icon
  {
    if rules != [] && !Matches(rules[0], mime, ext) {
      FirstMatchingIcon(rules[1..], mime, ext);
      if FirstMatching(rules[1..], mime, ext) != Generic {
        var i :| 0 <= i < |rules[1..]| && FirstMatching(rules[1..], mime, ext) == rules[1..][i].icon;
        assert rules[1..][i] == rules[i + 1];
      }
    }
  }

  /** The table never yields the shield: only the sensitivity flag does. */
  lemma {:induction false} FirstMatchingNotShield(rules: seq<Rule>, mime: string, ext: string)
    requires forall i :: 0 <= i < |rules| ==> rules[i].icon != ShieldAlert
    ensures FirstMatching(rules, mime, ext) != ShieldAlert
  {
    if rules != [] && !Matches(rules[0], mime, ext) {
      FirstMatchingNotShield(rules[1..], mime, ext);
    }
  }

  lemma RulesDistinct()
    ensures DistinctIcons(Rules)
    ensures forall i :: 0 <= i < |Rules| ==> Rules[i].icon != ShieldAlert
  {
  }

  /** The icons in the table are distinct, so "rule `k` is the first that
      matches" and "the icon is rule `k`'s" say the same thing; the generic
      icon means that the file is not sensitive and no rule matched; the
      shield means that the file is sensitive. */
  lemma IconForIsFirstRule(mime: string, name: string, isSensitive: bool, k: nat)
    requires k < |Rules|
    ensures IconFor(mime, name, false) == Rules[k].icon <==>
      Matches(Rules[k], mime, Extension(name)) && forall j :: 0 <= j < k ==> !Matches(Rules[j], mime, Extension(name))
    ensures IconFor(mime, name, isSensitive) == Generic <==>
      !isSensitive && forall j :: 0 <= j < |Rules| ==> !Matches(Rules[j], mime, Extension(name))
    ensures IconFor(mime, name, isSensitive) == ShieldAlert <==> isSensitive
  {
    IconForFollowsRules(mime, name, false);
    IconForFollowsRules(mime, name, isSensitive);
    RulesDistinct();
    FirstMatchingIsFirst(Rules, mime, Extension(name), k);
    FirstMatchingNotShield(Rules, mime, Extension(name));
  }
}

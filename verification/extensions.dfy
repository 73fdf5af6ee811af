/**
 * Extensions as the file collector sees them: the comma-separated lists the
 * user types (FileCollectorApp._parse_extensions) and the extension of a
 * file name, taken from pathlib's `suffix` (should_process_file and the
 * per-file header of collect_files_thread).
 */
module Extensions {
  import opened Text

  /** One token of a user list after `.strip().lower().lstrip('.')`. */
  function Normalize(token: string): (r: string)
    ensures IsLowerCase(r)
    ensures r == [] || r[0] != '.'
  {
    var lowered := Lower(Strip(token));
    var r := TrimLeadingDots(lowered);
    LowerCaseSuffix(lowered, |lowered| - |r|);
    r
  }

  /** The set comprehension over the comma-separated tokens, skipping blank
      ones: it holds the normalised form of every non-blank token and nothing
      else. */
  function ParseTokens(tokens: seq<string>): (r: set<string>)
    ensures forall t :: t in tokens && !IsBlank(t) ==> Normalize(t) in r
    ensures forall x :: x in r ==> exists t :: t in tokens && Strip(t) != [] && x == Normalize(t)
    ensures r == {} <==> forall t :: t in tokens ==> IsBlank(t)
  {
    set t | t in tokens && Strip(t) != [] :: Normalize(t)
  }

  /** _parse_extensions: a comma-separated list becomes a set of lower-case
      extensions, none of which starts with a dot; the set is empty exactly
      when every token is blank. */
  function ParseExtensions(extString: string): (r: set<string>)
    ensures forall ext :: ext in r ==> IsLowerCase(ext) && (ext == [] || ext[0] != '.')
    ensures r == {} <==> forall t :: t in Split(extString, ',') ==> IsBlank(t)
  {
    if extString == [] then {}
    else
      var tokens := Split(extString, ',');
      var r := ParseTokens(tokens);
      assert forall t :: t in tokens && Strip(t) != [] ==> Normalize(t) in r;
      r
  }

  /** The `if not ext_string` guard changes nothing: the empty string splits
      into one blank token. */
  lemma EmptyGuardRedundant(extString: string)
    ensures ParseExtensions(extString) == ParseTokens(Split(extString, ','))
  {
    if extString == [] {
      assert Split(extString, ',') == [[]];
      assert Strip([]) == [];
    }
  }

  /** A list without commas contributes its one token, unless it is blank. */
  lemma {:induction false} ParseSingle(token: string)
    requires ',' !in token
    ensures ParseExtensions(token) == if IsBlank(token) then {} else {Normalize(token)}
  {
    if token != [] {
      SplitNoSeparator(token, ',');
      ParseOneToken(token);
    }
  }

  /** The comprehension over a single token. */
  lemma ParseOneToken(t: string)
    ensures ParseTokens([t]) == if IsBlank(t) then {} else {Normalize(t)}
  {
    if !IsBlank(t) {
      ParseOneNonBlank(t);
    }
  }

  /** A single non-blank token contributes its normalised form and nothing else. */
  lemma ParseOneNonBlank(t: string)
    requires !IsBlank(t)
    ensures ParseTokens([t]) == {Normalize(t)}
  {
    ParseOneAtMost(t);
    assert t in [t];
  }

  /** A single token contributes nothing but its normalised form. */
  lemma ParseOneAtMost(t: string)
    ensures ParseTokens([t]) <= {Normalize(t)}
  {
    assert forall u :: u in [t] ==> u == t;
  }

  /** Parsing distributes over the comma: each part contributes its own tokens. */
  lemma {:induction false} ParseConcat(a: string, b: string)
    ensures ParseExtensions(a + [','] + b) == ParseExtensions(a) + ParseExtensions(b)
  {
    EmptyGuardRedundant(a);
    EmptyGuardRedundant(b);
    EmptyGuardRedundant(a + [','] + b);
    SplitAround(a, b, ',');
    var ta, tb := Split(a, ','), Split(b, ',');
    forall t ensures t in ta + tb <==> t in ta || t in tb {
    }
  }

  /** Token order does not matter. */
  lemma ParseCommutes(a: string, b: string)
    ensures ParseExtensions(a + [','] + b) == ParseExtensions(b + [','] + a)
  {
    ParseConcat(a, b);
    ParseConcat(b, a);
  }

  /** Repeated tokens do not matter. */
  lemma ParseAbsorbs(a: string)
    ensures ParseExtensions(a + [','] + a) == ParseExtensions(a)
  {
    ParseConcat(a, a);
  }

  /** str.rfind(c): the index of the last c in s, or -1 when there is none. */
  function RFind(s: string, c: char): (r: int)
    ensures -1 <= r < |s|
    ensures r >= 0 ==> s[r] == c && c !in s[r + 1..]
    ensures r == -1 ==> c !in s
  {
    if s == [] then -1
    else if s[|s| - 1] == c then |s| - 1
    else
      var r := RFind(s[..|s| - 1], c);
      assert s == s[..|s| - 1] + [s[|s| - 1]];
      r
  }

  /** pathlib's PurePath.suffix of a final path component: from the last dot
      on, provided that dot is neither the first nor the last character. */
  function Suffix(name: string): (r: string)
    ensures r != [] ==> 2 <= |r| < |name| && r == name[|name| - |r|..] && r[0] == '.' && '.' !in r[1..]
    ensures r == [] <==> |name| < 2 || '.' !in name[1..] || name[|name| - 1] == '.'
  {
    var i := RFind(name, '.');
    LastDotCases(name, i);
    if 0 < i < |name| - 1 then name[i..] else []
  }

  /** What the position i of the last dot says about the shape of name. */
  lemma LastDotCases(name: string, i: int)
    requires -1 <= i < |name|
    requires i >= 0 ==> name[i] == '.' && '.' !in name[i + 1..]
    requires i == -1 ==> '.' !in name
    ensures 0 < i < |name| - 1 ==> '.' !in name[i..][1..]
    ensures !(0 < i < |name| - 1) <==> |name| < 2 || '.' !in name[1..] || name[|name| - 1] == '.'
  {
    if 0 < i < |name| - 1 {
      assert name[i..][1..] == name[i + 1..];
      assert name[1..][i - 1] == name[i];
    } else if i == -1 {
      if |name| >= 2 {
        assert forall j :: 0 <= j < |name| - 1 ==> name[1..][j] == name[j + 1];
      }
    } else if i == 0 {
      if |name| >= 2 {
        assert name[1..] == name[i + 1..];
      }
    } else {
      assert name[|name| - 1] == name[i];
    }
    if |name| >= 2 && name[|name| - 1] == '.' && i < |name| - 1 {
      assert name[|name| - 1] == name[i + 1..][|name| - 2 - i];
    }
  }

  /** `file_path.suffix[1:].lower() if file_path.suffix else ""`: the
      lower-cased text after the last dot. When it is not empty it is the
      lower-cased tail of the name after a dot that has a non-empty stem
      before it and no dot after it. */
  function Extension(name: string): (r: string)
    ensures IsLowerCase(r) && '.' !in r
    ensures r != [] ==>
      var k := |name| - |r|;
      1 < k && name[k - 1] == '.' && '.' !in name[k..] && Lower(name[k..]) == r
  {
    var suffix := Suffix(name);
    if suffix != [] then Lower(suffix[1..]) else []
  }

  /** The bracketed extension in a file's header: as Extension, with an
      empty one rendered as "unknown". */
  function HeaderExtension(name: string): (r: string)
    ensures r == if Extension(name) == [] then "unknown" else Extension(name)
  {
    var suffix := Suffix(name);
    if suffix != [] then Lower(suffix[1..]) else "unknown"
  }

  /** A non-empty stem, a dot and a dot-free, non-empty tail: the extension
      is the lower-cased tail. */
  lemma {:induction false} ExtensionOfParts(stem: string, tail: string)
    requires stem != [] && tail != [] && '.' !in tail
    ensures Extension(stem + ['.'] + tail) == Lower(tail)
  {
    var name := stem + ['.'] + tail;
    var i := RFind(name, '.');
    assert name[|stem|] == '.';
    assert forall j :: |stem| < j < |name| ==> name[j] == tail[j - |stem| - 1];
    assert name[i + 1..] == tail;
  }

  /** The three shapes of name that have no extension. */
  lemma NoExtension(name: string)
    requires '.' !in name || (name[0] == '.' && '.' !in name[1..]) || name[|name| - 1] == '.'
    ensures Extension(name) == []
  {
    assert forall j :: 0 < j < |name| ==> name[j] == name[1..][j - 1];
  }
}

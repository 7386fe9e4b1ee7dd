/**
 * The shader sources of `src/shaders/mod.rs`: a GLSL 1.10 and a GLSL 3.30
 * source for each stage, used as they are on desktop OpenGL. On OpenGL ES
 * the source is rewritten line by line: a `#version` line becomes
 * "#version 100" (legacy) or "#version 300 es" followed by a default float
 * precision, and every line is terminated by "\n".
 */
module ShaderLines {
  import opened GlVersion

  datatype Shaders = Shaders(vertexShader330: string, fragmentShader330: string,
                             vertexShader110: string, fragmentShader110: string)

  const LegacyEsVersion: string := "#version 100"
  const EsVersion: string := "#version 300 es\nprecision mediump float;"

  /** `Shaders::default`, with the contents of the four bundled source
      files as inputs. */
  function Default(legacyVert: string, legacyFrag: string, modernVert: string, modernFrag: string): (s: Shaders)
    ensures s.vertexShader110 == legacyVert && s.fragmentShader110 == legacyFrag
    ensures s.vertexShader330 == modernVert && s.fragmentShader330 == modernFrag
  {
    Shaders(modernVert, modernFrag, legacyVert, legacyFrag)
  }

  predicate NoChar(s: string, c: char)
  {
    forall i :: 0 <= i < |s| ==> s[i] != c
  }

  /** A line as `str::lines` yields it: a "\r" before the "\n" is not part
      of it. */
  function StripCr(line: string): string
  {
    if |line| > 0 && line[|line| - 1] == '\r' then line[..|line| - 1] else line
  }

  /** `str::lines`: the text split at each "\n", with no empty line after
      a final "\n", and a "\r" before each "\n" dropped. */
  function Lines(s: string): (ls: seq<string>)
    ensures forall k :: 0 <= k < |ls| ==> NoChar(ls[k], '\n')
    decreases |s|
  {
    if |s| == 0 then []
    else
      var i := IndexOf(s, '\n');
      if i == |s| then [s] else [StripCr(s[..i])] + Lines(s[i + 1..])
  }

  /** The `fold` of `create_string`: each line followed by "\n", starting
      from the empty string. */
  function Joined(ls: seq<string>): (s: string)
    ensures |ls| > 0 ==> |s| > 0 && s[|s| - 1] == '\n'
  {
    if |ls| == 0 then "" else Joined(ls[..|ls| - 1]) + ls[|ls| - 1] + "\n"
  }

  /** `replace_version`: a `#version` line becomes the ES one; every other
      line is kept. */
  function ReplaceVersion(line: string, legacy: bool): (r: string)
    ensures StartsWith(line, "#version") ==> r == (if legacy then LegacyEsVersion else EsVersion)
    ensures !StartsWith(line, "#version") ==> r == line
  {
    if StartsWith(line, "#version") then
      if legacy then LegacyEsVersion else EsVersion
    else line
  }

  function ReplaceAll(ls: seq<string>, legacy: bool): (rs: seq<string>)
    ensures |rs| == |ls| && forall k :: 0 <= k < |ls| ==> rs[k] == ReplaceVersion(ls[k], legacy)
  {
    seq(|ls|, k requires 0 <= k < |ls| => ReplaceVersion(ls[k], legacy))
  }

  /** `create_string`: the legacy source iff `legacy`; unchanged on
      desktop OpenGL, rewritten line by line on OpenGL ES. */
  function CreateString(api: Api, legacy: bool, legacyStr: string, modernStr: string): (s: string)
    ensures var base := if legacy then legacyStr else modernStr;
      (api == Desktop ==> s == base) &&
      (api == ES ==> s == Joined(ReplaceAll(Lines(base), legacy)))
  {
    var base := if legacy then legacyStr else modernStr;
    match api
    case Desktop => base
    case ES => Joined(ReplaceAll(Lines(base), legacy))
  }

  /** `create_vert_string`: the vertex sources. */
  function CreateVertString(shaders: Shaders, api: Api, legacy: bool): (s: string)
    ensures api == Desktop ==> s == (if legacy then shaders.vertexShader110 else shaders.vertexShader330)
    ensures api == ES ==> s == Joined(ReplaceAll(Lines(if legacy then shaders.vertexShader110 else shaders.vertexShader330), legacy))
  {
    CreateString(api, legacy, shaders.vertexShader110, shaders.vertexShader330)
  }

  /** `create_frag_string`: the fragment sources. */
  function CreateFragString(shaders: Shaders, api: Api, legacy: bool): (s: string)
    ensures api == Desktop ==> s == (if legacy then shaders.fragmentShader110 else shaders.fragmentShader330)
    ensures api == ES ==> s == Joined(ReplaceAll(Lines(if legacy then shaders.fragmentShader110 else shaders.fragmentShader330), legacy))
  {
    CreateString(api, legacy, shaders.fragmentShader110, shaders.fragmentShader330)
  }

  // ---------------------------------------------------------------------
  // Splitting and joining lines

  /** `s` ending in "\n": itself, or `s` with a "\n" added. */
  function Terminated(s: string): (t: string)
  {
    if |s| == 0 || s[|s| - 1] == '\n' then s else s + "\n"
  }

  /** Joining a first line and the rest. */
  lemma {:induction false} JoinedCons(a: string, rest: seq<string>)
    ensures Joined([a] + rest) == a + "\n" + Joined(rest)
    decreases |rest|
  {
    if |rest| > 0 {
      var n := |rest|;
      assert ([a] + rest)[..n] == [a] + rest[..n - 1];
      JoinedCons(a, rest[..n - 1]);
    }
  }

  /** Joining the lines of a text without "\r" gives the text back, with a
      final "\n" added when it had none. */
  lemma {:induction false} JoinedLines(s: string)
    requires NoChar(s, '\r')
    ensures Joined(Lines(s)) == Terminated(s)
    decreases |s|
  {
    if |s| > 0 {
      var i := IndexOf(s, '\n');
      if i == |s| {
        assert Joined([s]) == Joined([]) + s + "\n";
      } else {
        var line, rest := s[..i], s[i + 1..];
        assert StripCr(line) == line by {
          if |line| > 0 { assert line[|line| - 1] == s[i - 1]; }
        }
        JoinedCons(line, Lines(rest));
        JoinedLines(rest);
        TerminatedAfterLine(s, i);
      }
    }
  }

  /** Terminating a text is terminating what follows its first line. */
  lemma TerminatedAfterLine(s: string, i: nat)
    requires i < |s| && s[i] == '\n'
    ensures Terminated(s) == s[..i] + "\n" + Terminated(s[i + 1..])
  {
    var line, rest := s[..i], s[i + 1..];
    assert s == line + "\n" + rest;
    if |rest| > 0 {
      assert s[|s| - 1] == rest[|rest| - 1];
    }
  }

  /** Splitting joined lines that hold no "\n" and do not end in "\r" gives
      the lines back. */
  lemma {:induction false} LinesJoined(ls: seq<string>)
    requires forall k :: 0 <= k < |ls| ==> NoChar(ls[k], '\n') && StripCr(ls[k]) == ls[k]
    ensures Lines(Joined(ls)) == ls
    decreases |ls|
  {
    if |ls| > 0 {
      var a, rest := ls[0], ls[1..];
      assert ls == [a] + rest;
      JoinedCons(a, rest);
      var s := a + "\n" + Joined(rest);
      IndexAfterLine(a, Joined(rest));
      assert s[..|a|] == a && s[|a| + 1..] == Joined(rest);
      LinesJoined(rest);
    }
  }

  /** The first "\n" after a line without one is the one that ends it. */
  lemma {:induction false} IndexAfterLine(a: string, rest: string)
    requires NoChar(a, '\n')
    ensures IndexOf(a + "\n" + rest, '\n') == |a|
    decreases |a|
  {
    if |a| > 0 {
      assert (a + "\n" + rest)[1..] == a[1..] + "\n" + rest;
      IndexAfterLine(a[1..], rest);
    }
  }

  // ---------------------------------------------------------------------
  // What `create_string` makes on OpenGL ES

  /** A source without "\r" and without a `#version` line is kept on
      OpenGL ES, only terminated by "\n". */
  lemma EsKeepsVersionless(legacy: bool, legacyStr: string, modernStr: string)
    requires var base := if legacy then legacyStr else modernStr;
      NoChar(base, '\r') && forall line | line in Lines(base) :: !StartsWith(line, "#version")
    ensures CreateString(ES, legacy, legacyStr, modernStr) == Terminated(if legacy then legacyStr else modernStr)
  {
    var base := if legacy then legacyStr else modernStr;
    assert ReplaceAll(Lines(base), legacy) == Lines(base);
    JoinedLines(base);
  }

  /** On OpenGL ES 2.0 (legacy), the lines made are the source's lines with
      each `#version` line replaced by "#version 100", so every version
      directive left is "#version 100". */
  lemma EsLegacyLines(legacyStr: string, modernStr: string)
    requires NoChar(legacyStr, '\r')
    ensures var made := Lines(CreateString(ES, true, legacyStr, modernStr));
      made == ReplaceAll(Lines(legacyStr), true) &&
      forall line | line in made :: StartsWith(line, "#version") ==> line == LegacyEsVersion
  {
    var ls := Lines(legacyStr);
    forall k | 0 <= k < |ls|
      ensures StripCr(ls[k]) == ls[k]
    {
      LineHasNoCr(legacyStr, k);
    }
    var rs := ReplaceAll(ls, true);
    forall k | 0 <= k < |rs|
      ensures NoChar(rs[k], '\n') && StripCr(rs[k]) == rs[k]
    {
    }
    LinesJoined(rs);
  }

  /** The lines of a text without "\r" hold none. */
  lemma {:induction false} LineHasNoCr(s: string, k: nat)
    requires NoChar(s, '\r') && k < |Lines(s)|
    ensures NoChar(Lines(s)[k], '\r')
    decreases |s|
  {
    var i := IndexOf(s, '\n');
    if i < |s| && k > 0 {
      LineHasNoCr(s[i + 1..], k - 1);
    }
  }

  /** On OpenGL ES 3.0, a source whose first line is a `#version` line
      starts with "#version 300 es" and the default float precision. */
  lemma EsModernHeader(legacyStr: string, modernStr: string)
    requires |Lines(modernStr)| > 0 && StartsWith(Lines(modernStr)[0], "#version")
    ensures StartsWith(CreateString(ES, false, legacyStr, modernStr), EsVersion + "\n")
  {
    var rs := ReplaceAll(Lines(modernStr), false);
    assert rs == [EsVersion] + rs[1..];
    JoinedCons(EsVersion, rs[1..]);
    var made := EsVersion + "\n" + Joined(rs[1..]);
    assert made[..|EsVersion + "\n"|] == EsVersion + "\n";
  }
}

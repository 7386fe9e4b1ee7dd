/**
 * The shader sources of `src/shaders.rs`: a vertex and fragment shader
 * pair for each of the four GLSL versions the renderer targets, and the
 * preamble inserted into a source that does not declare its own
 * `#version` ("#version 110" or "#version 330" on desktop OpenGL,
 * "#version 100" or "#version 300 es" and a default float precision on
 * OpenGL ES).
 */
module ShaderPairs {
  import opened GlVersion

  datatype ShaderType = Vertex | Fragment

  datatype ShaderPair = ShaderPair(vertexShader: string, fragmentShader: string)

  datatype Shaders = Shaders(shader330: ShaderPair, shader110: ShaderPair, shader300Es: ShaderPair, shader100Es: ShaderPair)

  const VersionDirective: string := "#version"
  const Precision: string := "precision mediump float;\n"

  /** `sub` occurs in `s` at index `i`. */
  predicate OccursAt(s: string, sub: string, i: int)
  {
    0 <= i && i + |sub| <= |s| && s[i..i + |sub|] == sub
  }

  /** `str::contains`: `sub` occurs somewhere in `s`. */
  predicate Contains(s: string, sub: string)
  {
    exists i :: 0 <= i <= |s| && OccursAt(s, sub, i)
  }

  /** `get_shader`: the source of the requested stage. */
  function GetShader(pair: ShaderPair, shaderType: ShaderType): (s: string)
    ensures shaderType == Vertex ==> s == pair.vertexShader
    ensures shaderType == Fragment ==> s == pair.fragmentShader
  {
    match shaderType
    case Vertex => pair.vertexShader
    case Fragment => pair.fragmentShader
  }

  /** `Shaders::default`, with the contents of the four bundled source
      files as inputs: the modern pair serves GLSL 3.30 and GLSL ES 3.00,
      the legacy pair GLSL 1.10 and GLSL ES 1.00. */
  function Default(legacyVert: string, legacyFrag: string, modernVert: string, modernFrag: string): (s: Shaders)
    ensures s.shader330 == s.shader300Es == ShaderPair(modernVert, modernFrag)
    ensures s.shader110 == s.shader100Es == ShaderPair(legacyVert, legacyFrag)
  {
    var legacy := ShaderPair(legacyVert, legacyFrag);
    var modern := ShaderPair(modernVert, modernFrag);
    Shaders(modern, legacy, modern, legacy)
  }

  /** The pair `create_string` reads for an API and tier. */
  function PairFor(shaders: Shaders, api: Api, legacy: bool): (p: ShaderPair)
    ensures api == Desktop && legacy ==> p == shaders.shader110
    ensures api == Desktop && !legacy ==> p == shaders.shader330
    ensures api == ES && legacy ==> p == shaders.shader100Es
    ensures api == ES && !legacy ==> p == shaders.shader300Es
  {
    match api
    case Desktop => if legacy then shaders.shader110 else shaders.shader330
    case ES => if legacy then shaders.shader100Es else shaders.shader300Es
  }

  /** The `#version` line expected for an API and tier. */
  function VersionLine(api: Api, legacy: bool): (v: string)
    ensures StartsWith(v, VersionDirective)
  {
    match api
    case Desktop => if legacy then "#version 110" else "#version 330"
    case ES => if legacy then "#version 100" else "#version 300 es"
  }

  /** The preamble inserted before a source without `#version`: the
      version line, and on OpenGL ES the default float precision. */
  function Header(api: Api, legacy: bool): (h: string)
    ensures StartsWith(h, VersionLine(api, legacy) + "\n")
    ensures api == Desktop ==> h == VersionLine(api, legacy) + "\n"
    ensures api == ES ==> h == VersionLine(api, legacy) + "\n" + Precision
  {
    var h := VersionLine(api, legacy) + "\n";
    if api != Desktop then
      assert (h + Precision)[..|h|] == h;
      h + Precision
    else h
  }

  /** `create_string`: the selected source as it is when it declares its
      own version, and after the preamble otherwise. The warning logged
      for an unexpected version in debug builds leaves the result alone. */
  function CreateString(shaders: Shaders, api: Api, legacy: bool, shaderType: ShaderType): (s: string)
    ensures var base := GetShader(PairFor(shaders, api, legacy), shaderType);
      (Contains(base, VersionDirective) ==> s == base) &&
      (!Contains(base, VersionDirective) ==> s == Header(api, legacy) + base)
  {
    var base := GetShader(PairFor(shaders, api, legacy), shaderType);
    if Contains(base, VersionDirective) then base else Header(api, legacy) + base
  }

  /** `create_vert_string`: the vertex source of the selected pair. */
  function CreateVertString(shaders: Shaders, api: Api, legacy: bool): (s: string)
    ensures var base := PairFor(shaders, api, legacy).vertexShader;
      s == (if Contains(base, VersionDirective) then base else Header(api, legacy) + base)
  {
    CreateString(shaders, api, legacy, Vertex)
  }

  /** `create_frag_string`: the fragment source of the selected pair. */
  function CreateFragString(shaders: Shaders, api: Api, legacy: bool): (s: string)
    ensures var base := PairFor(shaders, api, legacy).fragmentShader;
      s == (if Contains(base, VersionDirective) then base else Header(api, legacy) + base)
  {
    CreateString(shaders, api, legacy, Fragment)
  }

  /** A source that starts with `p` contains it. */
  lemma PrefixContained(s: string, p: string)
    requires StartsWith(s, p)
    ensures Contains(s, p)
  {
    assert OccursAt(s, p, 0);
  }

  /** Every created source declares a version. */
  lemma {:induction false} CreatedHasVersion(shaders: Shaders, api: Api, legacy: bool, shaderType: ShaderType)
    ensures Contains(CreateString(shaders, api, legacy, shaderType), VersionDirective)
  {
    var base := GetShader(PairFor(shaders, api, legacy), shaderType);
    if !Contains(base, VersionDirective) {
      var h := Header(api, legacy);
      var v := VersionLine(api, legacy);
      assert h[..|VersionDirective|] == (v + "\n")[..|VersionDirective|] == v[..|VersionDirective|];
      assert (h + base)[..|VersionDirective|] == h[..|VersionDirective|];
      PrefixContained(h + base, VersionDirective);
    }
  }

  /** Creating a source is idempotent: a created source, used as every
      source of a set of shaders, comes back unchanged. */
  lemma {:induction false} CreateIdempotent(shaders: Shaders, api: Api, legacy: bool, shaderType: ShaderType,
                                            api': Api, legacy': bool, shaderType': ShaderType)
    ensures var s := CreateString(shaders, api, legacy, shaderType);
      var pair := ShaderPair(s, s);
      CreateString(Shaders(pair, pair, pair, pair), api', legacy', shaderType') == s
  {
    CreatedHasVersion(shaders, api, legacy, shaderType);
  }

  /** With a version-less source, the preamble comes off again: the source
      follows the header exactly. */
  lemma {:induction false} HeaderThenSource(shaders: Shaders, api: Api, legacy: bool, shaderType: ShaderType)
    requires !Contains(GetShader(PairFor(shaders, api, legacy), shaderType), VersionDirective)
    ensures var s := CreateString(shaders, api, legacy, shaderType);
      var h := Header(api, legacy);
      |h| <= |s| && s[|h|..] == GetShader(PairFor(shaders, api, legacy), shaderType) &&
      (api == ES <==> Contains(s[..|h|], Precision))
  {
    var h := Header(api, legacy);
    var base := GetShader(PairFor(shaders, api, legacy), shaderType);
    var s := h + base;
    assert s[..|h|] == h && s[|h|..] == base;
    var v := VersionLine(api, legacy);
    if api == ES {
      assert OccursAt(h, Precision, |v| + 1);
    } else {
      assert h == v + "\n";
      NoPrecisionIn(v, legacy);
    }
  }

  /** The desktop preambles are too short to hold the precision line. */
  lemma NoPrecisionIn(v: string, legacy: bool)
    requires v == VersionLine(Desktop, legacy)
    ensures !Contains(v + "\n", Precision)
  {
    assert |v + "\n"| < |Precision|;
  }
}

/** The two loading phases of `ResourceManager`.

    `loadSplash` loads what the splash frame needs and keeps the vertex
    shader `image2D.v.glsl` alive in a `unique_ptr`; `loadGame` links a
    second program against that same shader, loads the menu assets and
    then frees it. Any asset that cannot be read raises an
    `InitException` naming the file; calling `loadGame` when the retained
    shader is absent dereferences an empty pointer, which the model reports
    as its own error rather than leaving undefined.

    Driver handles, buffer contents and cursors are abstracted: a program is
    recorded by the two shader files it was linked from.
 */
module Resources {

  import opened Wrappers
  import opened Exceptions

  /** A file under the asset root, by the loader that reads it. */
  datatype Asset = TextureFile(path: string) | ShaderFile(path: string) | FontFile(path: string)

  /** A linked program, by its vertex and fragment shader files. */
  datatype Program = Program(vertex: string, fragment: string)

  datatype Manager = Manager(
    image2Dv: Option<string>,
    image2D: Option<Program>,
    text2D: Option<Program>,
    solid2D: Option<Program>,
    textures: seq<string>,
    font: Option<string>,
    busyCursor: bool,
    arrowCursor: bool)

  datatype LoadError = Missing(exception: InitException) | NoSharedVertexShader

  /** The manager as constructed: nothing loaded. */
  function NewManager(): (m: Manager)
    ensures m.image2Dv.None? && m.image2D.None? && m.text2D.None? && m.solid2D.None?
    ensures m.textures == [] && m.font.None? && !m.busyCursor && !m.arrowCursor
  {
    Manager(None, None, None, None, [], None, false, false)
  }

  /** The exception a loader throws for a file it cannot read. */
  function MissingAsset(a: Asset): (e: InitException)
    ensures e.message == "Could not read file " + a.path
    ensures a.TextureFile? ==> e.title == "Failed to load texture " + a.path
    ensures a.ShaderFile? ==> e.title == "Failed to load shader " + a.path
    ensures a.FontFile? ==> e.title == "Failed to load font " + a.path
  {
    match a
    case TextureFile(p) => InitException("Failed to load texture " + p, "Could not read file " + p)
    case ShaderFile(p) => InitException("Failed to load shader " + p, "Could not read file " + p)
    case FontFile(p) => InitException("Failed to load font " + p, "Could not read file " + p)
  }

  /** The first asset of `assets` that cannot be read, if any. */
  function FirstMissing(assets: seq<Asset>, readable: set<Asset>): (r: Option<nat>)
    ensures r.None? <==> forall i :: 0 <= i < |assets| ==> assets[i] in readable
    ensures r.Some? ==>
              && r.value < |assets| && assets[r.value] !in readable
              && forall i :: 0 <= i < r.value ==> assets[i] in readable
    decreases |assets|
  {
    if |assets| == 0 then None
    else if assets[0] !in readable then Some(0)
    else match FirstMissing(assets[1..], readable)
      case None => None
      case Some(i) => Some(i + 1)
  }

  /** Loads `assets` in order, stopping at the first that cannot be read. */
  function Need(assets: seq<Asset>, readable: set<Asset>): (r: Result<(), LoadError>)
    ensures r.Success? <==> forall i :: 0 <= i < |assets| ==> assets[i] in readable
    ensures r.Failure? ==> exists i :: 0 <= i < |assets| && assets[i] !in readable
                            && r.error == Missing(MissingAsset(assets[i]))
                            && forall j :: 0 <= j < i ==> assets[j] in readable
  {
    match FirstMissing(assets, readable)
    case None => Success(())
    case Some(i) => Failure(Missing(MissingAsset(assets[i])))
  }

  /** What `loadSplash` reads, in order. */
  function SplashAssets(): seq<Asset> {
    [TextureFile("splash.tga"), ShaderFile("image2D.v.glsl"), ShaderFile("image2D.f.glsl")]
  }

  /** The menu textures `loadGame` reads, in order. */
  function MenuTextures(): seq<string> {
    ["mainMenu/background.tga", "mainMenu/title.tga",
     "mainMenu/newCampaignOn.tga", "mainMenu/newCampaignOff.tga",
     "mainMenu/loadCampaignOn.tga", "mainMenu/loadCampaignOff.tga",
     "mainMenu/optionsOn.tga", "mainMenu/optionsOff.tga",
     "mainMenu/quitOn.tga", "mainMenu/quitOff.tga"]
  }

  function TextureAssets(paths: seq<string>): (r: seq<Asset>)
    ensures |r| == |paths| && forall i :: 0 <= i < |paths| ==> r[i] == TextureFile(paths[i])
  {
    seq(|paths|, i requires 0 <= i < |paths| => TextureFile(paths[i]))
  }

  /** What `loadGame` reads before it needs the retained shader. */
  function GameAssetsBefore(): seq<Asset> {
    [FontFile("Orbitron.ttf"), ShaderFile("text2D.f.glsl")]
  }

  /** What `loadGame` reads after linking `text2D`. */
  function GameAssetsAfter(): seq<Asset> {
    [ShaderFile("solid2D.v.glsl"), ShaderFile("solid2D.f.glsl")] + TextureAssets(MenuTextures())
  }

  /** `loadSplash`. */
  function LoadSplash(m: Manager, readable: set<Asset>): (r: Result<Manager, LoadError>)
    ensures r.Success? <==> forall i :: 0 <= i < |SplashAssets()| ==> SplashAssets()[i] in readable
    ensures r.Success? ==>
              && r.value.image2Dv == Some("image2D.v.glsl")
              && r.value.image2D == Some(Program("image2D.v.glsl", "image2D.f.glsl"))
              && r.value.busyCursor
              && r.value.textures == m.textures + ["splash.tga"]
              && r.value.text2D == m.text2D && r.value.solid2D == m.solid2D
              && r.value.font == m.font && r.value.arrowCursor == m.arrowCursor
  {
    var _ :- Need(SplashAssets(), readable);
    Success(m.(image2Dv := Some("image2D.v.glsl"),
               textures := m.textures + ["splash.tga"],
               image2D := Some(Program("image2D.v.glsl", "image2D.f.glsl")),
               busyCursor := true))
  }

  /** `loadGame`. */
  function LoadGame(m: Manager, readable: set<Asset>): (r: Result<Manager, LoadError>)
    ensures r.Success? <==>
              && m.image2Dv.Some?
              && (forall i :: 0 <= i < |GameAssetsBefore()| ==> GameAssetsBefore()[i] in readable)
              && (forall i :: 0 <= i < |GameAssetsAfter()| ==> GameAssetsAfter()[i] in readable)
    ensures (exists i :: 0 <= i < |GameAssetsBefore()| && GameAssetsBefore()[i] !in readable) ==>
              r.Failure? && r.error.Missing?
    ensures r.Success? ==>
              && r.value.image2Dv == None
              && r.value.text2D == Some(Program(m.image2Dv.value, "text2D.f.glsl"))
              && r.value.solid2D == Some(Program("solid2D.v.glsl", "solid2D.f.glsl"))
              && r.value.image2D == m.image2D
              && r.value.textures == m.textures + MenuTextures()
              && r.value.font == Some("Orbitron.ttf") && r.value.arrowCursor
              && r.value.busyCursor == m.busyCursor
    ensures r.Failure? && r.error == NoSharedVertexShader ==>
              m.image2Dv.None? && forall i :: 0 <= i < |GameAssetsBefore()| ==> GameAssetsBefore()[i] in readable
  {
    var _ :- Need(GameAssetsBefore(), readable);
    if m.image2Dv.None? then
      Failure(NoSharedVertexShader)
    else
      var text2D := Program(m.image2Dv.value, "text2D.f.glsl");
      var _ :- Need(GameAssetsAfter(), readable);
      Success(m.(arrowCursor := true,
                 font := Some("Orbitron.ttf"),
                 text2D := Some(text2D),
                 solid2D := Some(Program("solid2D.v.glsl", "solid2D.f.glsl")),
                 textures := m.textures + MenuTextures(),
                 image2Dv := None))
  }

  /** Every asset either phase reads. */
  predicate AllReadable(readable: set<Asset>) {
    && (forall i :: 0 <= i < |SplashAssets()| ==> SplashAssets()[i] in readable)
    && (forall i :: 0 <= i < |GameAssetsBefore()| ==> GameAssetsBefore()[i] in readable)
    && (forall i :: 0 <= i < |GameAssetsAfter()| ==> GameAssetsAfter()[i] in readable)
  }

  /** With every asset readable, splash then game succeeds; both image
      programs share the splash vertex shader, which is released at the
      end. */
  lemma SplashThenGame(readable: set<Asset>)
    requires AllReadable(readable)
    ensures LoadSplash(NewManager(), readable).Success?
    ensures var s := LoadSplash(NewManager(), readable).value;
            var g := LoadGame(s, readable);
            && g.Success?
            && g.value.image2D.value.vertex == g.value.text2D.value.vertex == "image2D.v.glsl"
            && g.value.image2Dv.None?
  {
  }

  /** `loadGame` cannot come first. */
  lemma GameNeedsSplash(readable: set<Asset>)
    ensures LoadGame(NewManager(), readable).Failure?
  {
  }

  /** `loadGame` cannot run twice: the first run frees the shared shader. */
  lemma GameOnlyOnce(m: Manager, readable: set<Asset>)
    requires LoadGame(m, readable).Success?
    ensures LoadGame(LoadGame(m, readable).value, readable).Failure?
  {
  }

  /** `loadGame` fails at the first thing that goes wrong in its order: an
      unreadable font or `text2D` fragment shader, then the missing shared
      vertex shader, then an unreadable `solid2D` shader or menu texture. */
  lemma GameReportsFirstMissing(m: Manager, readable: set<Asset>)
    requires LoadGame(m, readable).Failure?
    ensures var e := LoadGame(m, readable).error;
      || (exists i :: 0 <= i < |GameAssetsBefore()| && GameAssetsBefore()[i] !in readable
            && e == Missing(MissingAsset(GameAssetsBefore()[i]))
            && forall j :: 0 <= j < i ==> GameAssetsBefore()[j] in readable)
      || ((forall i :: 0 <= i < |GameAssetsBefore()| ==> GameAssetsBefore()[i] in readable)
            && m.image2Dv.None? && e == NoSharedVertexShader)
      || ((forall i :: 0 <= i < |GameAssetsBefore()| ==> GameAssetsBefore()[i] in readable)
            && m.image2Dv.Some?
            && exists i :: 0 <= i < |GameAssetsAfter()| && GameAssetsAfter()[i] !in readable
                 && e == Missing(MissingAsset(GameAssetsAfter()[i]))
                 && forall j :: 0 <= j < i ==> GameAssetsAfter()[j] in readable)
  {
  }

  /** A missing file fails the phase with the exception for the first
      missing file the phase reads. */
  lemma SplashReportsFirstMissing(m: Manager, readable: set<Asset>)
    requires LoadSplash(m, readable).Failure?
    ensures exists i :: 0 <= i < |SplashAssets()| && SplashAssets()[i] !in readable
              && LoadSplash(m, readable).error == Missing(MissingAsset(SplashAssets()[i]))
              && forall j :: 0 <= j < i ==> SplashAssets()[j] in readable
  {
  }
}

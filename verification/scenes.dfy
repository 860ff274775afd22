/** The data exchanged between the client, the proxy and the text-generation provider. */
module Scenes {

  /** A value that may be absent (a JSON field that is missing, null or undefined). */
  datatype Option<+T> = None | Some(value: T) {
    function GetOr(default: T): T {
      match this
      case Some(v) => v
      case None => default
    }
  }

  /** One character appearing in a scene; no identity beyond the name. */
  datatype Character = Character(name: string, description: string)

  /**
   * One narrative unit. The provider estimates `sceneLengthSeconds`; it is optional
   * here because the client treats a missing value as 0.
   */
  datatype Scene = Scene(
    sceneId: int,
    setting: string,
    time: string,
    location: string,
    characters: seq<Character>,
    dialogue: string,
    sceneLengthSeconds: Option<int>)

  /** Scenes in narrative order. */
  type SceneList = seq<Scene>
}

/**
 * `display_image_from_sdcard`: shows an SD-card image full screen in one
 * container object that is created on the first call that finds its file,
 * kept in the file-level static `img_container`, and emptied and reused on
 * every later call that finds its file.
 */
module ImageDisplay {
  import opened Decimal
  import opened Effects

  /** The LVGL source for a file: drive letter `S:` then the path, formatted into a 64-byte buffer. */
  function LvglPath(path: string): (src: string)
    ensures |src| <= 63
    ensures src <= "S:" + path
    ensures |path| <= 61 ==> src == "S:" + path
    ensures |path| > 61 ==> src == ("S:" + path)[..63]
  {
    Snprintf(64, "S:" + path)
  }

  /** The calls one invocation makes, given whether the container exists and whether `stat` found the file. */
  function ShowEffects(hasContainer: bool, fileExists: bool, path: string): seq<Effect>
  {
    if !fileExists then [LogImageNotFound(path)]
    else
      [ if hasContainer then ContainerClean else ContainerCreate,
        ImageCreate,
        ImageSetSource(LvglPath(path)),
        ClearFlag(ImgContainer, Hidden),
        MoveForeground(ImgContainer) ]
  }

  /** A missing file is logged once and nothing is drawn; a present one is drawn from its `S:` path. */
  lemma ShowEffectsOutcome(hasContainer: bool, fileExists: bool, path: string)
    ensures !fileExists ==> ShowEffects(hasContainer, fileExists, path) == [LogImageNotFound(path)]
    ensures fileExists ==> ImageSetSource(LvglPath(path)) in ShowEffects(hasContainer, fileExists, path)
    ensures ContainerCreate in ShowEffects(hasContainer, fileExists, path) <==> fileExists && !hasContainer
  {
  }

  /** The container object: the sources of the images it holds, and its hidden flag. */
  class Container {
    var images: seq<string>
    var hidden: bool

    /** `lv_obj_create`: an empty, visible object. */
    constructor ()
      ensures images == [] && !hidden
    {
      images := [];
      hidden := false;
    }

    /** `lv_obj_clean`: deletes the children. */
    method Clean()
      modifies this
      ensures images == [] && hidden == old(hidden)
    {
      images := [];
    }
  }

  /** The state `display_image_from_sdcard` keeps between calls: the static `img_container`. */
  class Display {
    var container: Container?

    /** `img_container` starts NULL. */
    constructor ()
      ensures container == null
    {
      container := null;
    }

    /**
     * One call with `path`; `fileExists` is whether `stat` succeeded. A
     * missing file changes nothing. Otherwise the container is created if
     * there is none and emptied if there is one, then holds exactly the one
     * new image and is visible.
     */
    method Show(path: string, fileExists: bool) returns (effects: seq<Effect>)
      modifies this, container
      ensures effects == ShowEffects(old(container) != null, fileExists, path)
      ensures !fileExists ==> container == old(container)
      ensures !fileExists && container != null ==> unchanged(container)
      ensures fileExists ==> container != null && container.images == [LvglPath(path)] && !container.hidden
      ensures fileExists && old(container) != null ==> container == old(container)
      ensures fileExists && old(container) == null ==> fresh(container)
    {
      if !fileExists {
        return [LogImageNotFound(path)];
      }
      var first: Effect;
      if container == null {
        container := new Container();
        first := ContainerCreate;
      } else {
        container.Clean();
        first := ContainerClean;
      }
      var src := LvglPath(path);
      container.images := container.images + [src];
      container.hidden := false;
      effects := [first, ImageCreate, ImageSetSource(src), ClearFlag(ImgContainer, Hidden), MoveForeground(ImgContainer)];
    }
  }
}

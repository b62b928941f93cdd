/**
 * The vision service's `ModelManager`: at most one vision model resident at
 * a time, swapped on demand, and one Whisper speech model created on first
 * use.  Loading a model is foreign (weights, devices, Ollama); whether a
 * `load()` succeeds is an input.
 */
module Manager {
  import opened Wrappers

  /** The vision models `_factory` can build. */
  datatype VisionModel = Moondream2 | Ollama(tag: string)

  /** The Whisper model, with whether its `load()` reported success. */
  datatype WhisperModel = WhisperModel(loaded: bool)

  const Moondream2Name := "Moondream2"
  const GemmaName := "Ollama-Gemma3"
  const GraniteName := "Ollama-Granite3.2-Vision"

  /** `_factory(name)`: the model for one of the three known names, else None. */
  function Factory(name: string): (m: Option<VisionModel>)
    ensures m.Some? <==> name == Moondream2Name || name == GemmaName || name == GraniteName
    ensures name == Moondream2Name ==> m == Some(Moondream2)
    ensures name == GemmaName ==> m == Some(Ollama("gemma3"))
    ensures name == GraniteName ==> m == Some(Ollama("granite3.2-vision"))
  {
    if name == Moondream2Name then Some(Moondream2)
    else if name == GemmaName then Some(Ollama("gemma3"))
    else if name == GraniteName then Some(Ollama("granite3.2-vision"))
    else None
  }

  class ModelManager {
    var activeModel: Option<VisionModel>
    var activeModelName: string
    var whisperModel: Option<WhisperModel>

    /** The resident model is the one the factory builds for the active name. */
    predicate Valid()
      reads this
    {
      activeModel.Some? ==> activeModel == Factory(activeModelName)
    }

    /** The fields `__new__` sets on first construction. */
    constructor()
      ensures Valid() && activeModel == None && activeModelName == "" && whisperModel == None
    {
      activeModel := None;
      activeModelName := "";
      whisperModel := None;
    }

    /**
     * `get_model(name)`, given whether the new model's `load()` succeeds:
     * the model, or None; `offloaded` is the model whose `offload()` was
     * called to make room, if any.
     */
    method GetModel(name: string, loads: bool) returns (m: Option<VisionModel>, offloaded: Option<VisionModel>)
      requires Valid()
      modifies this
      ensures Valid()
      ensures whisperModel == old(whisperModel)
      // the requested model is already resident: nothing is loaded or offloaded
      ensures old(activeModel).Some? && old(activeModelName) == name ==>
                m == old(activeModel) && offloaded == None
                && activeModel == old(activeModel) && activeModelName == old(activeModelName)
      // otherwise the resident model, if any, is offloaded first
      ensures !(old(activeModel).Some? && old(activeModelName) == name) ==> offloaded == old(activeModel)
      ensures !(old(activeModel).Some? && old(activeModelName) == name) && Factory(name).Some? && loads ==>
                m == Factory(name) && activeModel == m && activeModelName == name
      ensures !(old(activeModel).Some? && old(activeModelName) == name) && (Factory(name).None? || !loads) ==>
                m == None && activeModel == None && activeModelName == old(activeModelName)
    {
      offloaded := None;
      if activeModel.Some? && activeModelName == name {
        return activeModel, offloaded;
      }
      if activeModel.Some? {
        offloaded := activeModel;
        activeModel := None;
      }
      var newModel := Factory(name);
      if newModel.Some? && loads {
        activeModel := newModel;
        activeModelName := name;
        return newModel, offloaded;
      }
      return None, offloaded;
    }

    /**
     * `get_whisper()`, given whether Whisper's `load()` succeeds: the cached
     * model when there is one; otherwise the vision model is offloaded and
     * forgotten, and a new Whisper is created, loaded and kept, whether or
     * not its load succeeded.
     */
    method GetWhisper(loads: bool) returns (w: WhisperModel, offloaded: Option<VisionModel>)
      requires Valid()
      modifies this
      ensures Valid()
      ensures old(whisperModel).Some? ==>
                w == old(whisperModel).value && offloaded == None
                && activeModel == old(activeModel) && activeModelName == old(activeModelName) && whisperModel == old(whisperModel)
      ensures old(whisperModel).None? ==>
                w == WhisperModel(loads) && whisperModel == Some(w) && offloaded == old(activeModel) && activeModel == None
      ensures old(whisperModel).None? ==>
                activeModelName == if old(activeModel).Some? then "" else old(activeModelName)
    {
      offloaded := None;
      if whisperModel.Some? {
        return whisperModel.value, offloaded;
      }
      if activeModel.Some? {
        offloaded := activeModel;
        activeModel := None;
        activeModelName := "";
      }
      w := WhisperModel(loads);
      whisperModel := Some(w);
    }
  }

  /** The class-level `_instance`: every `ModelManager()` after the first returns the same object, untouched. */
  class ManagerSingleton {
    var instance: ModelManager?

    constructor()
      ensures instance == null
    {
      instance := null;
    }

    method New() returns (m: ModelManager)
      modifies this
      ensures old(instance) != null ==> m == old(instance) && unchanged(m)
      ensures old(instance) == null ==> fresh(m) && m.activeModel == None && m.activeModelName == "" && m.whisperModel == None
      ensures instance == m
    {
      if instance == null {
        instance := new ModelManager();
      }
      m := instance;
    }
  }

  /**
   * Whisper is created once: after a first `get_whisper`, a second returns
   * the same model and touches no vision state.
   */
  method WhisperOnce(mm: ModelManager, first: bool, second: bool) returns (w1: WhisperModel, w2: WhisperModel)
    requires mm.Valid()
    modifies mm
    ensures w1 == w2
    ensures mm.whisperModel == Some(w1)
    ensures old(mm.whisperModel).None? ==> mm.activeModel == None
    ensures old(mm.whisperModel).None? ==> w1 == WhisperModel(first)
  {
    var o1, o2;
    w1, o1 := mm.GetWhisper(first);
    w2, o2 := mm.GetWhisper(second);
  }

  /** Asking twice for a model that loads gives the same model, loaded once, with nothing offloaded the second time. */
  method SecondRequestIsCached(mm: ModelManager, name: string) returns (m1: Option<VisionModel>, m2: Option<VisionModel>, o2: Option<VisionModel>)
    requires mm.Valid() && Factory(name).Some?
    modifies mm
    ensures m1 == m2 == Factory(name) && o2 == None
    ensures mm.activeModel == Factory(name) && mm.activeModelName == name
  {
    var o1;
    m1, o1 := mm.GetModel(name, true);
    m2, o2 := mm.GetModel(name, false);
  }
}

/**
 * The packaged variant, `templatestorage`: class `Store`.  Only a
 * missing file means "new, empty store"; any other failure to read the
 * file is raised out of the constructor.
 */
module Templatestorage {
  import opened Wrappers
  import opened PyDict
  import opened Backing

  /** What a mutating call did: returned normally, or raised. */
  datatype Outcome = Returned | Raised(error: PyError)

  /**
   * `open_store`: FileNotFoundError becomes an empty dict, every other
   * failure propagates, and a decodable file gives what it holds.
   */
  function OpenStore<Img>(f: FileState<Img>): (r: Result<Option<Dict<string, Img>>, PyError>)
    ensures f.Missing? ==> r == Success(Some([]))
    ensures f.Unreadable? ==> r == Failure(OSError)
    ensures f.Undecodable? ==> r == Failure(DecodeError)
    ensures f.Pickled? ==> r == Success(f.value)
  {
    match Load(f)
    case Success(v) => Success(v)
    case Failure(FileNotFoundError) => Success(Some([]))
    case Failure(e) => Failure(e)
  }

  class Store<Img> {
    const storeName: string
    /**
     * `self.template_store`: a dict, or None when the file held a pickled
     * None (which the older variant writes when it saves "no store").
     */
    var templateStore: Option<Dict<string, Img>>
    /** The file at `storeName`, which the store owns exclusively. */
    var disk: FileState<Img>

    ghost predicate Valid()
      reads this
    {
      (templateStore.Some? ==> UniqueKeys(templateStore.value)) && disk.WellFormed()
    }

    /** The mapping the store holds, empty for None. */
    ghost function Contents(): map<string, Img>
      reads this
    {
      if templateStore.Some? then ToMap(templateStore.value) else map[]
    }

    /** Allocation of the object once the file has been read. */
    constructor Init(storeName: string, templateStore: Option<Dict<string, Img>>, file: FileState<Img>)
      ensures this.storeName == storeName && this.templateStore == templateStore && disk == file
    {
      this.storeName := storeName;
      this.templateStore := templateStore;
      disk := file;
    }

    /**
     * `Store(store_name)`: opens the file; when `open_store` raises there
     * is no store object, only the exception.
     */
    static method Open(storeName: string, file: FileState<Img>) returns (r: Result<Store<Img>, PyError>)
      requires file.WellFormed()
      ensures r.Failure? <==> OpenStore(file).Failure?
      ensures r.Failure? ==> r.error == OpenStore(file).error
      ensures r.Success? ==>
        && fresh(r.value) && r.value.Valid()
        && r.value.storeName == storeName
        && r.value.templateStore == OpenStore(file).value
        && r.value.disk == file
    {
      var contents := OpenStore(file);
      if contents.Failure? {
        r := Failure(contents.error);
      } else {
        var store := new Store<Img>.Init(storeName, contents.value, file);
        r := Success(store);
      }
    }

    /** `save_store`: the file is rewritten from the in-memory value. */
    method SaveStore()
      requires Valid()
      modifies this
      ensures Valid()
      ensures templateStore == old(templateStore)
      ensures disk == Persist(templateStore) && Load(disk) == Success(templateStore)
    {
      disk := Persist(templateStore);
    }

    /**
     * `add_templates`: merges the input with `update` and saves.  On a
     * store that is None, `update` raises AttributeError before anything
     * is saved.
     */
    method AddTemplates(templateDict: Dict<string, Img>) returns (outcome: Outcome)
      requires Valid() && UniqueKeys(templateDict)
      modifies this
      ensures Valid()
      ensures old(templateStore).None? ==>
        outcome == Raised(AttributeError) && templateStore == old(templateStore) && disk == old(disk)
      ensures old(templateStore).Some? ==>
        && outcome == Returned
        && templateStore == Some(Update(old(templateStore).value, templateDict))
        && Contents() == old(Contents()) + ToMap(templateDict)
        && Keys(old(templateStore).value) <= Keys(templateStore.value)
        && disk == Persist(templateStore)
    {
      if templateStore.None? {
        outcome := Raised(AttributeError);
        return;
      }
      UpdateUnique(templateStore.value, templateDict);
      UpdateMap(templateStore.value, templateDict);
      UpdateKeepsOrder(templateStore.value, templateDict);
      templateStore := Some(Update(templateStore.value, templateDict));
      SaveStore();
      outcome := Returned;
    }

    /**
     * `remove_templates`: the dict is rebuilt without the listed names,
     * keeping the order of the rest, and saved.  Nothing happens on a
     * store that is None.
     */
    method RemoveTemplates(templateNames: seq<string>)
      requires Valid()
      modifies this
      ensures Valid()
      ensures old(templateStore).None? ==> templateStore == old(templateStore) && disk == old(disk)
      ensures old(templateStore).Some? ==>
        && templateStore == Some(FilterOut(old(templateStore).value, templateNames))
        && Contents() == old(Contents()) - (set n | n in templateNames)
        && Subsequence(templateStore.value, old(templateStore).value)
        && disk == Persist(templateStore)
    {
      if templateStore.Some? {
        var d := templateStore.value;
        FilterOutUnique(d, templateNames);
        FilterOutMap(d, templateNames);
        FilterOutSubsequence(d, templateNames);
        templateStore := Some(FilterOut(d, templateNames));
        SaveStore();
      }
    }

    /**
     * `get_template`: None for a store that is None, the stored image for
     * a present name, and KeyError for a missing one.
     */
    function GetTemplate(templateName: string): (r: Result<Option<Img>, PyError>)
      reads this
      ensures templateStore.None? ==> r == Success(None)
      ensures templateStore.Some? && templateName in Contents() ==>
        r == Success(Some(Contents()[templateName]))
      ensures templateStore.Some? && templateName !in Contents() ==>
        r == Failure(KeyError(templateName))
    {
      if templateStore.None? then Success(None)
      else match Find(templateStore.value, templateName)
        case Some(image) => Success(Some(image))
        case None => Failure(KeyError(templateName))
    }
  }

  /**
   * A store opened where no file exists, filled with `add_templates`,
   * returns every added image by name and raises KeyError for any other.
   */
  method AddThenGet<Img>(storeName: string, templateDict: Dict<string, Img>, templateName: string)
    returns (got: Result<Option<Img>, PyError>)
    requires UniqueKeys(templateDict)
    ensures templateName in ToMap(templateDict) ==>
      got == Success(Some(ToMap(templateDict)[templateName]))
    ensures templateName !in ToMap(templateDict) ==> got == Failure(KeyError(templateName))
  {
    var created := Store.Open(storeName, Missing);
    var store := created.value;
    var _ := store.AddTemplates(templateDict);
    got := store.GetTemplate(templateName);
  }

  /**
   * After adding a dict to a new store and removing some names, a name
   * that was added and not removed still gives its image; a removed name
   * raises KeyError.
   */
  method RemoveThenGet<Img>(storeName: string, templateDict: Dict<string, Img>,
                            removed: seq<string>, templateName: string)
    returns (got: Result<Option<Img>, PyError>)
    requires UniqueKeys(templateDict)
    ensures templateName in ToMap(templateDict) && templateName !in removed ==>
      got == Success(Some(ToMap(templateDict)[templateName]))
    ensures templateName in removed ==> got == Failure(KeyError(templateName))
  {
    var created := Store.Open(storeName, Missing);
    var store := created.value;
    var _ := store.AddTemplates(templateDict);
    store.RemoveTemplates(removed);
    got := store.GetTemplate(templateName);
  }

  /**
   * Every mutation rewrites the whole file: reopening the path after an
   * add and a remove yields exactly the mapping left in memory.
   */
  method ReopenAfterRemove<Img>(storeName: string, templateDict: Dict<string, Img>,
                                removed: seq<string>)
    returns (reloaded: Option<Dict<string, Img>>)
    requires UniqueKeys(templateDict)
    ensures reloaded == Some(FilterOut(templateDict, removed))
    ensures ToMap(reloaded.value) == ToMap(templateDict) - (set n | n in removed)
  {
    var created := Store.Open(storeName, Missing);
    var store := created.value;
    var _ := store.AddTemplates(templateDict);
    UpdateFreshKeys([], templateDict);
    assert [] + templateDict == templateDict;
    store.RemoveTemplates(removed);
    var reopened := Store.Open(storeName, store.disk);
    reloaded := reopened.value.templateStore;
  }
}

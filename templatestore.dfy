/**
 * The older variant, `templatestore`: class `TemplateStore`.  Its
 * in-memory dict may be `None` ("no store"), which is what any failure
 * to read the backing file gives.
 */
module Templatestore {
  import opened Wrappers
  import opened PyDict
  import opened Backing

  /** `open_store`: every failure to open or decode the file is swallowed as None. */
  function OpenStore<Img>(f: FileState<Img>): (r: Option<Dict<string, Img>>)
    ensures f.Missing? || f.Unreadable? || f.Undecodable? ==> r == None
    ensures f.Pickled? ==> r == f.value
  {
    match Load(f)
    case Success(v) => v
    case Failure(_) => None
  }

  class TemplateStore<Img> {
    const storeName: string
    /** `self.template_store`. */
    var templateStore: Option<Dict<string, Img>>
    /** The file at `storeName`, which the store owns exclusively. */
    var disk: FileState<Img>

    ghost predicate Valid()
      reads this
    {
      (templateStore.Some? ==> UniqueKeys(templateStore.value)) && disk.WellFormed()
    }

    /** The mapping the store holds, empty for "no store". */
    ghost function Contents(): map<string, Img>
      reads this
    {
      if templateStore.Some? then ToMap(templateStore.value) else map[]
    }

    /** `__init__`: bind to the path and load whatever the file gives. */
    constructor (storeName: string, file: FileState<Img>)
      requires file.WellFormed()
      ensures Valid()
      ensures this.storeName == storeName && disk == file
      ensures templateStore == OpenStore(file)
    {
      this.storeName := storeName;
      disk := file;
      templateStore := OpenStore(file);
    }

    /** `save_store`: the file is rewritten from the in-memory value. */
    method SaveStore()
      requires Valid()
      modifies this
      ensures Valid()
      ensures templateStore == old(templateStore)
      ensures disk == Persist(templateStore) && Load(disk) == Success(templateStore)
    {
      disk := Persist(templateStore);
    }

    /**
     * `add_templates`: a store that is None becomes a copy of the input;
     * otherwise the input is merged in.  Either way the store is saved.
     */
    method AddTemplates(templateDict: Dict<string, Img>)
      requires Valid() && UniqueKeys(templateDict)
      modifies this
      ensures Valid()
      ensures old(templateStore).None? ==> templateStore == Some(templateDict)
      ensures old(templateStore).Some? ==>
        templateStore == Some(Update(old(templateStore).value, templateDict))
      ensures templateStore.Some?
      ensures old(templateStore).None? ==> Contents() == ToMap(templateDict)
      ensures old(templateStore).Some? ==> Contents() == old(Contents()) + ToMap(templateDict)
      ensures disk == Persist(templateStore) && Load(disk) == Success(templateStore)
    {
      if templateStore.None? {
        templateStore := Some(templateDict);
        SaveStore();
      } else {
        UpdateUnique(templateStore.value, templateDict);
        UpdateMap(templateStore.value, templateDict);
        templateStore := Some(Update(templateStore.value, templateDict));
        SaveStore();
      }
    }

    /**
     * `remove_template`: on a store that is None nothing happens.
     * Otherwise the name is popped if present (`notFound` reports the
     * printed message when it is not) and the store is saved in both cases.
     */
    method RemoveTemplate(templateName: string) returns (notFound: bool)
      requires Valid()
      modifies this
      ensures Valid()
      ensures old(templateStore).None? ==>
        templateStore == old(templateStore) && disk == old(disk) && !notFound
      ensures old(templateStore).Some? ==>
        && notFound == (templateName !in old(Contents()))
        && templateStore == Some(Delete(old(templateStore).value, templateName))
        && Contents() == old(Contents()) - {templateName}
        && disk == Persist(templateStore)
      ensures old(templateStore).Some? && notFound ==> templateStore == old(templateStore)
    {
      notFound := false;
      if templateStore.Some? {
        var d := templateStore.value;
        DeleteMap(d, templateName);
        DeleteSubsequence(d, templateName);
        if Find(d, templateName).Some? {
          templateStore := Some(Delete(d, templateName));
        } else {
          DeleteAbsent(d, templateName);
          notFound := true;
        }
        assert UniqueKeys(Delete(d, templateName)) by {
          DeleteIsFilterOut(d, templateName);
          FilterOutUnique(d, [templateName]);
        }
        SaveStore();
      }
    }

    /**
     * `get_template`: None for a store that is None, the stored image for
     * a present name, and KeyError for a missing one.
     */
    function GetTemplate(templateName: string): (r: Result<Option<Img>, PyError>)
      reads this
      ensures templateStore.None? ==> r == Success(None)
      ensures templateStore.Some? && templateName in Contents() ==>
        r == Success(Some(Contents()[templateName]))
      ensures templateStore.Some? && templateName !in Contents() ==>
        r == Failure(KeyError(templateName))
    {
      if templateStore.None? then Success(None)
      else match Find(templateStore.value, templateName)
        case Some(image) => Success(Some(image))
        case None => Failure(KeyError(templateName))
    }
  }

  /**
   * A saved store reopens to exactly what it held: add a dict to a store
   * opened on any file, then open a second store on the rewritten file and
   * look a name up in it.
   */
  method AddThenReopen<Img>(storeName: string, file: FileState<Img>,
                            templateDict: Dict<string, Img>, templateName: string)
    returns (got: Result<Option<Img>, PyError>)
    requires file.WellFormed() && UniqueKeys(templateDict)
    ensures templateName in ToMap(templateDict) ==>
      got == Success(Some(ToMap(templateDict)[templateName]))
  {
    var store := new TemplateStore(storeName, file);
    store.AddTemplates(templateDict);
    var reopened := new TemplateStore(storeName, store.disk);
    assert reopened.templateStore == store.templateStore;
    got := reopened.GetTemplate(templateName);
  }
}

# template-storage, modelled in Dafny

The repository stores named image templates in one bz2-compressed pickle
file. The whole name→image dict is kept in memory, and the file is
rewritten after every change. It exists in two variants:

- `templatestore` (class `TemplateStore`, the older one). Its in-memory
  store may be `None` ("no store"), and any failure to read the file gives
  `None`.
- `templatestorage` (class `Store`, the packaged one). Only a missing file
  gives an empty store. Every other read failure is raised out of the
  constructor.

The model has six files:

- `wrappers.dfy` — `Option` and `Result`.
- `pydict.dfy` — Python's insertion-ordered `dict`, written as a list of
  key/value pairs with distinct keys. `ToMap` gives its abstract mapping.
  The module has the dict operations the stores use: lookup, item
  assignment, `update`, `pop`, and rebuilding from a filtered `items()`.
  Lemmas state what each operation does to the mapping, to the key order
  and to key uniqueness.
- `backing.dfy` — the backing file, as the value that reading it back
  would give (`FileState`), and the Python exceptions that reach the
  stores. Compression and pickling together are one abstract round trip:
  `Persist` writes and `Load` reads back.
- `filenames.dfy` — the command line's rule for naming a template after
  its file (`file.split(".")[0]`).
- `templatestore.dfy` — class `TemplateStore`.
- `templatestorage.dfy` — class `Store`.

Each store is a class with two state fields:

- `templateStore` is the in-memory dict or `None`.
- `disk` is the file at the store's path.

Every mutating method gives its new state in terms of the `PyDict`
functions and of the mapping `Contents()`. On every path that saves, it
ends with `disk == Persist(templateStore)`, so reading the file back
gives exactly the memory state. Three paths do not save, and there the
file keeps its old contents:

- `TemplateStore.RemoveTemplate` on a store that is `None`;
- `Store.AddTemplates` on a store that is `None`, which raises
  `AttributeError`;
- `Store.RemoveTemplates` on a store that is `None`.

`get_template` is a function that reads the object. Four client methods
compose these contracts into the repository's end-to-end properties:
`Templatestore.AddThenReopen`, and `AddThenGet`, `RemoveThenGet` and
`ReopenAfterRemove` in `Templatestorage`. They state that:

- an added image can be read back by name;
- a removed name is gone and the other names still work;
- reopening the file gives exactly what was left in memory.

How the code handles errors:

- A file that exists but cannot be decoded gives `None` in
  `templatestore`. In `templatestorage` it raises out of the constructor.
- In both variants, `get_template` raises `KeyError` for a missing name.
- Neither store class has an operation that lists names. Listing is done
  by the command line's `main`.

## Model

| member | source | states |
|---|---|---|
| PyDict.Find | templatestorage/__main__.py:80 | `d[k]` finds a value exactly when `k` is a key of the mapping, and that value is the mapped one |
| PyDict.ToMap | templatestorage/__main__.py:38 | the keys of a dict's mapping are exactly the keys in its entry list |
| PyDict.AssignMap | templatestorage/__main__.py:38 | item assignment inside `update` sets `k` to `v` in the mapping and changes no other key |
| PyDict.AssignKeys | templatestorage/__main__.py:38 | an existing key keeps its position; a new key is appended last |
| PyDict.AssignUnique | templatestorage/__main__.py:38 | item assignment keeps keys distinct |
| PyDict.UpdateMap | templatestorage/__main__.py:37-38 | after `update(e)`, every key of `e` maps to its value in `e`, and other keys keep their old values; the key set is the union |
| PyDict.UpdateKeepsOrder | templatestorage/__main__.py:38 | `update` keeps the old keys as a prefix, in their old order |
| PyDict.UpdateUnique | templatestorage/__main__.py:38 | `update` keeps keys distinct |
| PyDict.UpdateFreshKeys | templatestore/__main__.py:41-43 | when no key of `e` is already present, `update(e)` appends `e`'s entries in order; on an empty dict it equals a copy |
| PyDict.DeleteMap | templatestore/__main__.py:55 | `pop(k)` removes `k` from the mapping and leaves every other entry unchanged |
| PyDict.DeleteAbsent | templatestore/__main__.py:54-57 | popping a missing key (the KeyError path) leaves the dict exactly as it was |
| PyDict.DeleteSubsequence | templatestore/__main__.py:55 | `pop` keeps the remaining entries in their order |
| PyDict.FilterOutEntries | templatestorage/__main__.py:49-50 | the filter keeps exactly the entries whose key is not in the name list |
| PyDict.FilterOutMap | templatestorage/__main__.py:49-50 | after the filter, the keys are exactly the old keys not in the list, with unchanged values |
| PyDict.FilterOutUnique | templatestorage/__main__.py:49-50 | the filtered dict has distinct keys |
| PyDict.FilterOutSubsequence | templatestorage/__main__.py:49-50 | the filter keeps insertion order |
| PyDict.FilterOutIdempotent | templatestorage/__main__.py:49-50 | removing the same list twice is the same as removing it once |
| PyDict.FilterOutAbsent | templatestorage/__main__.py:49-50 | removing names that are not keys leaves the dict unchanged, order included |
| PyDict.DeleteIsFilterOut | templatestorage/__main__.py:49-50 | on a dict, the older variant's `pop` of one name equals the packaged variant's filter with that single name |
| Backing.Load | templatestore/__main__.py:100-111 | reading the file succeeds exactly when it holds a pickle; a missing file raises FileNotFoundError and nothing else does; the other failures raise OSError or a decode error |
| Backing.Persist | templatestore/__main__.py:90-98 | writing the compressed pickle and reading it back gives exactly the saved value |
| FileNames.TemplateName | templatestorage/__main__.py:161 | the template name is a prefix of the file name, contains no `.`, and is followed in the file name by a `.` or by nothing |
| FileNames.TemplateNameUnique | templatestorage/__main__.py:161 | that prefix is unique: it is the part before the first `.` |
| FileNames.TemplateNameOfStemAndExtension | templatestorage/__main__.py:161 | `stem.ext` is named `stem` when the stem has no dot |
| FileNames.TemplateNameIdempotent | templatestorage/__main__.py:161 | a template name names itself |
| Templatestore.OpenStore | templatestore/__main__.py:60-70 | a missing, unreadable or undecodable file gives None ("no store") rather than an error; a decodable file gives its contents |
| Templatestore.TemplateStore.constructor | templatestore/__main__.py:22-29 | the store remembers its path and holds what `open_store` read from the file |
| Templatestore.TemplateStore.SaveStore | templatestore/__main__.py:72-74 | the file is rewritten from memory and reads back as the memory state; memory is unchanged |
| Templatestore.TemplateStore.AddTemplates | templatestore/__main__.py:31-44 | on "no store", the store becomes a copy of the input; otherwise the input is merged in (input keys take the input image, other keys keep theirs); either way disk equals memory afterwards |
| Templatestore.TemplateStore.RemoveTemplate | templatestore/__main__.py:46-58 | on "no store", nothing changes and nothing is saved; otherwise the name is no longer a key and everything else is unchanged; a missing name is reported, leaves memory unchanged, and is still saved |
| Templatestore.TemplateStore.GetTemplate | templatestore/__main__.py:76-88 | None on "no store"; the stored image for a present name; KeyError for a missing name |
| Templatestore.AddThenReopen | templatestore/__main__.py:22-44 | after adding a dict to a store opened on any file, a store reopened on the rewritten file returns each added image by name |
| Templatestorage.OpenStore | templatestorage/__main__.py:53-64 | only a missing file gives an empty dict; an unreadable or undecodable file raises; a decodable file gives its contents |
| Templatestorage.Store.Open | templatestorage/__main__.py:21-28 | construction fails with exactly the error `open_store` raises; otherwise a fresh store holds what was read, bound to its path |
| Templatestorage.Store.SaveStore | templatestorage/__main__.py:66-68 | the file is rewritten from memory and reads back as the memory state |
| Templatestorage.Store.AddTemplates | templatestorage/__main__.py:30-39 | the input is merged in (input keys take the input image, other keys keep theirs, old keys keep their order) and saved; a None store raises AttributeError and nothing changes |
| Templatestorage.Store.RemoveTemplates | templatestorage/__main__.py:41-51 | the keys become exactly the old keys not listed, values unchanged, order kept, and the result is saved; a None store is left alone |
| Templatestorage.Store.GetTemplate | templatestorage/__main__.py:70-82 | None for a None store; the stored image for a present name; KeyError for a missing name |
| Templatestorage.AddThenGet | tests/template_store_test.py:9-25 | after adding a dict to a store opened where no file exists, every added name returns its image and any other name raises KeyError |
| Templatestorage.RemoveThenGet | tests/template_store_test.py:27-47 | after adding and then removing some names, the names that remain return their original images and removed names raise KeyError |
| Templatestorage.ReopenAfterRemove | templatestorage/__main__.py:41-68 | reopening the file after an add and a remove gives exactly the added entries minus the removed names, in their original order |

## Left out

- Argument parsing (`run_parser`) and `main` are not modelled. `main` lists the store, turns file names into a dict with `Image.open`, and calls the mutators. Only its naming rule is modelled, as `FileNames.TemplateName`.
- Console messages are not modelled. The one exception is the older variant's missing-name message in `remove_template`, which appears as the `notFound` result. `Store.open_store`'s "Store not found" message is dropped.
- bz2 compression and pickling are foreign library code. The backing file is modelled by the value that reading it back gives. File size and compression ratio are therefore not modelled.
- A file holding a pickled value that is neither a dict nor None is not modelled.
- Images are not decoded or compared. They are a type parameter `Img` of the classes and functions.
- Write failures are not modelled: permissions, a full disk, a crash part-way through a rewrite, and atomic replacement. `Persist` always succeeds.
- The file system beyond the store's own file is not modelled. `storeName` is kept only as a label, and the file's state is the `disk` field.
- The copy made by `deepcopy` in `add_templates` is not modelled as a separate object, and neither is any aliasing between the caller's dict and the store. Dafny values are never shared.
- Constructors and `add_templates` require their dicts to have distinct keys (`UniqueKeys`). Every Python dict has distinct keys, including an unpickled one, so this only states the argument's type.
- The default path `store_name="store"` of both constructors is not modelled. `storeName` is always passed explicitly.
- `setup.py` is packaging metadata. The test file is not modelled as code: its two tests become the client methods `AddThenGet` and `RemoveThenGet`.

# CDM storage manager: namespaces and corpus paths

A Dafny model of the namespace and corpus-path layer of the Common Data Model
object model's `StorageManager` (Python). That layer does two jobs.

- **Corpus paths** (module `CorpusPaths`, pure functions). A corpus path is
  `namespace:path`. The module splits a corpus path at its first colon. It
  rejects paths that start with `./` or contain `../` or `/./`, in either slash
  style. It makes a path absolute, choosing the namespace by a fixed
  precedence and placing a relative path under the folder of the object it
  belongs to. It makes a path relative to a container again by stripping the
  container's `ns:` prefix and then its folder path.
- **The registry** (module `Storage`, class `StorageManager`). This is the
  adapter table and the root-folder table, each keyed by namespace in mount
  order (Python `OrderedDict`, modelled by module `OrderedDicts`), plus the
  set of system-defined namespaces. `Mount` and `Unmount` update them in
  place. The class invariant `Valid()` says three things:
  - both tables hold the same namespaces in the same order;
  - every folder is the root folder `/` of its own namespace;
  - only mounted namespaces are marked system-defined.
  The registry also looks up an adapter or a root folder, and translates
  paths by asking the mounted adapters: in mount order, the first adapter
  with a non-empty answer wins.

Storage adapters are opaque values (`Storage.Adapter`). Their path
translations (`create_corpus_path`, `create_adapter_path`) are parameters of
arrow type, so the model says which adapter is asked and how its answer is
used, but not what the answer is. The working directory used by the
constructor is also a parameter.

Python's `None` and `''` behave alike wherever the path functions test a
namespace or folder path: they are only tested for truthiness or compared
with a non-empty string. Both are therefore the empty string here. The
default namespace stays an `Option`, because corpus-path-to-adapter-path
looks it up in the adapter table, and there `''` can be a mounted key while
`None` never is.

## Model

| member | source | states |
|---|---|---|
| `CorpusPaths.Find` | objectModel/Python/cdm/storage/storage_manager.py:257 | `str.find` of a character: -1 exactly when the character is absent, otherwise an index holding it with no earlier occurrence |
| `CorpusPaths.SplitNamespacePath` | objectModel/Python/cdm/storage/storage_manager.py:255-263 | a path with no colon gives `('', path)`; otherwise the namespace has no colon and namespace + `:` + rest is the input (split at the first colon) |
| `CorpusPaths.SplitJoinRoundTrip` | objectModel/Python/cdm/storage/storage_manager.py:255-263 | inverse direction: splitting `ns:path` with a colon-free `ns` gives back `(ns, path)` |
| `CorpusPaths.QualifyRoundTrip` | objectModel/Python/cdm/storage/storage_manager.py:177 | the output shape `ns:path` (or the bare path when the namespace is empty) splits back into its namespace and path |
| `CorpusPaths.ContainsIsInfix` | objectModel/Python/cdm/storage/storage_manager.py:285-288 | the substring test used for the `in` checks holds exactly when the pattern occurs at some index |
| `CorpusPaths.UnsupportedPathFormatIff` | objectModel/Python/cdm/storage/storage_manager.py:278-293 | a path is unsupported exactly when it starts with `./` or `.\`, or contains `../`, `..\`, `/./` or `\.\` |
| `CorpusPaths.ContainsUnsupportedPathFormat` | objectModel/Python/cdm/storage/storage_manager.py:278-293 | the unsupported-format test; `UnsupportedPathFormatIff` states exactly which paths it rejects |
| `CorpusPaths.WithTrailingSlash` | objectModel/Python/cdm/storage/storage_manager.py:158-160 | a non-empty prefix ends in `/` afterwards; it is kept as a prefix, at most one `/` is added, and one already ending in `/` is unchanged |
| `CorpusPaths.CreateAbsoluteCorpusPath` | objectModel/Python/cdm/storage/storage_manager.py:134-177 | the result is None exactly when the path is unsupported, or the object's prefix is non-empty and unsupported, or the path is relative and carries a namespace other than the object's |
| `CorpusPaths.NamespacedRelativePathNeedsObject` | objectModel/Python/cdm/storage/storage_manager.py:163-170 | a relative `ns:path` given without an object is rejected |
| `CorpusPaths.RelativePathWithoutObject` | objectModel/Python/cdm/storage/storage_manager.py:163-177 | a relative path with no namespace and no object becomes `/path` in the default namespace |
| `CorpusPaths.AbsoluteOfRootedPath` | objectModel/Python/cdm/storage/storage_manager.py:174-177 | an accepted path that already begins with `/` keeps its path unchanged. Its namespace is its own, then the object's, then the default |
| `CorpusPaths.AbsoluteCorpusPathReadsBack` | objectModel/Python/cdm/storage/storage_manager.py:172-177 | an accepted result splits back into the namespace chosen by precedence and the resolved path. A relative path takes the object's namespace, then its own, then the default; an absolute path takes its own, then the object's, then the default |
| `CorpusPaths.ResolvedPathIsRooted` | objectModel/Python/cdm/storage/storage_manager.py:162-172 | the resolved path ends with the given path, and begins with `/` when there is no object or the object's folder begins with `/` |
| `CorpusPaths.AbsoluteCorpusPathIdempotent` | objectModel/Python/cdm/storage/storage_manager.py:134-177 | applying the function again, with the same object, to its own rooted and supported result returns that result |
| `CorpusPaths.CreateRelativeCorpusPath` | objectModel/Python/cdm/storage/storage_manager.py:179-191 | the absolute form with the container's prefix stripped; its contract is in `StripContainerPrefixRestores`, `RelativeCorpusPathBelowFolder` and `RelativeCorpusPathRoundTrip` |
| `CorpusPaths.StripContainerPrefix` | objectModel/Python/cdm/storage/storage_manager.py:185-190 | the stripping step of the relative form; its exact result and the restoring property are in `StripContainerPrefixRestores` |
| `CorpusPaths.StripContainerPrefixRestores` | objectModel/Python/cdm/storage/storage_manager.py:185-191 | a matching `ns:` is removed; then the folder path is removed too when it is non-empty and the rest starts with it, otherwise the rest is kept (so `n:/x` under `("n", "/z/")` gives `/x`); without a matching `ns:` the path comes back as it is. Putting the removed prefix back restores the absolute form |
| `CorpusPaths.RelativeCorpusPathBelowFolder` | objectModel/Python/cdm/storage/storage_manager.py:179-191 | `ns:` + folder + p, made relative to the container (ns, folder), gives p |
| `CorpusPaths.RelativeCorpusPathRoundTrip` | objectModel/Python/cdm/storage/storage_manager.py:179-191 | a relative path made absolute under a container, whose folder is rooted and ends in `/`, comes back unchanged |
| `OrderedDicts.Empty` | objectModel/Python/cdm/storage/storage_manager.py:21-22 | a new table has no keys and stores nothing |
| `OrderedDicts.Put` | objectModel/Python/cdm/storage/storage_manager.py:198 | after `d[k] = v`, `k` maps to `v` and every other key keeps its value; existing keys keep their positions; a new key is appended last |
| `OrderedDicts.Without` | objectModel/Python/cdm/storage/storage_manager.py:268 | the order after removing `k` holds exactly the other keys, still without repeats |
| `OrderedDicts.Pop` | objectModel/Python/cdm/storage/storage_manager.py:268-269 | after `pop(k, None)`, `k` is absent and every other key keeps its value; popping an absent key changes nothing |
| `OrderedDicts.WithoutKeepsOrder` | objectModel/Python/cdm/storage/storage_manager.py:268-269 | removing a key leaves the relative order of every other pair of keys as it was (both directions) |
| `OrderedDicts.PopPutMovesLast` | objectModel/Python/cdm/storage/storage_manager.py:274-276 | popping a key and storing it again moves it to the end of the order |
| `Storage.MountKeepsRegistryValid` | objectModel/Python/cdm/storage/storage_manager.py:197-205 | storing an adapter and its root folder under a namespace, and dropping the namespace from the system-defined set, keeps the registry invariant |
| `Storage.UnmountKeepsRegistryValid` | objectModel/Python/cdm/storage/storage_manager.py:268-272 | popping a namespace from both tables and from the system-defined set keeps the registry invariant |
| `Storage.StorageManager.constructor` | objectModel/Python/cdm/storage/storage_manager.py:14-38 | mounts the local adapter under `local` and the GitHub adapter under `cdm`, in that order, both marked system-defined, with no default namespace |
| `Storage.StorageManager.FetchAdapter` | objectModel/Python/cdm/storage/storage_manager.py:83-88 | an adapter is returned exactly when the namespace is mounted, and it is the mounted one |
| `Storage.StorageManager.FetchRootFolder` | objectModel/Python/cdm/storage/storage_manager.py:90-97 | a folder is returned exactly when the namespace is given, non-empty and mounted, and it is that namespace's root folder `/` |
| `Storage.StorageManager.Mount` | objectModel/Python/cdm/storage/storage_manager.py:193-205 | with an adapter: both tables bind the namespace (the folder table to its root folder), a re-mounted namespace keeps its place, and the namespace leaves the system-defined set. Without an adapter nothing changes. The invariant is kept |
| `Storage.StorageManager.Unmount` | objectModel/Python/cdm/storage/storage_manager.py:265-276 | the namespace always leaves the system-defined set. A namespace other than `cdm` leaves both tables, and an absent one other than `cdm` leaves them unchanged. `cdm` is popped and then mounted again with the resource adapter, last in the order, whether or not it was mounted before. The invariant is kept |
| `Storage.StorageManager.AdapterPathToCorpusPath` | objectModel/Python/cdm/storage/storage_manager.py:44-62 | the first adapter in mount order that gives a non-empty corpus path wins, and its namespace is prefixed. When none does, the result is the last adapter's answer, or None with nothing mounted |
| `Storage.StorageManager.CorpusPathToAdapterPath` | objectModel/Python/cdm/storage/storage_manager.py:64-81 | hands the path after the namespace to the adapter of the path's namespace, or of the default namespace; its contract is in `CorpusPathUsesMountedAdapter` and `CorpusPathUsesDefaultNamespace` |
| `Storage.CorpusPathUsesMountedAdapter` | objectModel/Python/cdm/storage/storage_manager.py:64-81 | `ns:path` is handed, as `path`, to the adapter mounted for `ns`; the result is None when none is mounted |
| `Storage.CorpusPathUsesDefaultNamespace` | objectModel/Python/cdm/storage/storage_manager.py:69-79 | a path without a namespace goes to the default namespace's adapter; the result is None when there is no default or it is not mounted |

## Left out

- Logger calls (`self._ctx.logger.error` / `warning`) and the `_ctx` property: diagnostics only, with no effect on results.
- `fetch_config`, `mount_from_config`, `save_adapters_config_async` and the `_registered_adapter_types` table: JSON encoding, reflection over the adapter module and asynchronous writes.
- Adapter behaviour (`LocalAdapter`, `GithubAdapter`, `ResourceAdapter`, `create_corpus_path`, `create_adapter_path`): foreign code. Adapters are opaque values, and the two translations are function parameters.
- `os.getcwd()`: it is the constructor's `cwd` parameter.
- `CdmFolderDefinition` and the `_corpus` link: a root folder is only its namespace and folder path (`CorpusPaths.Container`).
- The `obj.in_document` branch of `create_absolute_corpus_path`: the caller passes the container's namespace and folder path directly, whether they come from the object or from its document.
- `self.default_namespace` in the path functions: the pure functions take it as a parameter.
- CorpusPaths.CreateAbsoluteCorpusPath: a `None` folder path on the object is modelled as the empty string. On a relative path the source then raises a `TypeError` (`None + str`), where the model places the path under the empty prefix.
- CorpusPaths.CreateAbsoluteCorpusPath: the `IndexError` the source raises when the path after the namespace is empty is excluded by the precondition `AbsolutePathDefined`. That precondition allows exactly the inputs on which an earlier `return None` is taken or the path is non-empty.
- CorpusPaths.CreateRelativeCorpusPath: the `AttributeError` from calling `.startswith` on a `None` absolute path is excluded by the precondition `RelativePathDefined`. It only matters when the container has a namespace.
- Python object truthiness (`if obj`, `if adapter`): every object and adapter passed in is assumed to be truthy.
- `objectModel/Python/cdm/persistence/cdmfolder/types/type_attribute.py`: a holder of fields with defaults and no behaviour.

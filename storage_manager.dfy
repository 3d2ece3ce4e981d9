/**
 * The storage manager's registry: which storage adapter and which root
 * folder are mounted for each namespace, in mount order, and which
 * namespaces hold the adapters the program itself set up.
 */
module Storage {
  import opened Wrappers
  import opened CorpusPaths
  import opened OrderedDicts

  /** Storage adapters are opaque: only which adapter is mounted where matters here. */
  datatype Adapter = LocalAdapter(root: string) | GithubAdapter | ResourceAdapter | OtherAdapter(name: string)

  /** The root folder created when a namespace is mounted: that namespace, at folder path `/`. */
  function RootFolder(namespace: string): Container {
    Container(namespace, "/")
  }

  /** Python truthiness of an optional string: present and non-empty. */
  predicate Understood(path: Option<string>) {
    path.Some? && path.value != ""
  }

  /**
   * The registry invariant: the two tables hold the same namespaces in the
   * same order, every folder is the root folder of its namespace, and only
   * mounted namespaces are marked system-defined.
   */
  ghost predicate RegistryValid(adapters: OrderedDict<Adapter>, folders: OrderedDict<Container>, systemDefined: set<string>) {
    && adapters.Valid()
    && folders.Valid()
    && folders.keys == adapters.keys
    && (forall ns :: ns in folders.values ==> folders.values[ns] == RootFolder(ns))
    && systemDefined <= adapters.values.Keys
  }

  /** Mounting an adapter keeps the registry invariant. */
  lemma MountKeepsRegistryValid(adapters: OrderedDict<Adapter>, folders: OrderedDict<Container>, systemDefined: set<string>,
                                namespace: string, adapter: Adapter)
    requires RegistryValid(adapters, folders, systemDefined)
    ensures RegistryValid(Put(adapters, namespace, adapter), Put(folders, namespace, RootFolder(namespace)),
                          systemDefined - {namespace})
  {
    PutSameKeys(adapters, folders, namespace, adapter, RootFolder(namespace));
  }

  /** Unmounting a namespace keeps the registry invariant. */
  lemma UnmountKeepsRegistryValid(adapters: OrderedDict<Adapter>, folders: OrderedDict<Container>, systemDefined: set<string>,
                                  namespace: string)
    requires RegistryValid(adapters, folders, systemDefined)
    ensures RegistryValid(Pop(adapters, namespace), Pop(folders, namespace), systemDefined - {namespace})
  {
  }

  class StorageManager {
    /** The namespace used when a path names none (Python's `None` by default). */
    var defaultNamespace: Option<string>
    var namespaceAdapters: OrderedDict<Adapter>
    var namespaceFolders: OrderedDict<Container>
    /** Namespaces whose adapters the program set up, not a user. */
    var systemDefinedNamespaces: set<string>

    ghost predicate Valid()
      reads this
    {
      RegistryValid(namespaceAdapters, namespaceFolders, systemDefinedNamespaces)
    }

    /** Mounts the local adapter rooted at `cwd` under `local` and the GitHub adapter under `cdm`, both system-defined. */
    constructor (cwd: string)
      ensures Valid()
      ensures defaultNamespace == None
      ensures namespaceAdapters.keys == ["local", "cdm"]
      ensures FetchAdapter("local") == Some(LocalAdapter(cwd)) && FetchAdapter("cdm") == Some(GithubAdapter)
      ensures systemDefinedNamespaces == {"local", "cdm"}
    {
      defaultNamespace := None;
      namespaceAdapters := Empty();
      namespaceFolders := Empty();
      systemDefinedNamespaces := {};
      new;
      Mount("local", Some(LocalAdapter(cwd)));
      assert namespaceAdapters.keys == ["local"];
      Mount("cdm", Some(GithubAdapter));
      assert namespaceAdapters.keys == ["local", "cdm"];
      assert FetchAdapter("local") == Some(LocalAdapter(cwd));
      systemDefinedNamespaces := systemDefinedNamespaces + {"local"} + {"cdm"};
    }

    /** The adapter mounted for `namespace`, if any. */
    function FetchAdapter(namespace: string): (r: Option<Adapter>)
      reads this
      ensures r.Some? <==> namespace in namespaceAdapters.values
      ensures r.Some? ==> r.value == namespaceAdapters.values[namespace]
    {
      namespaceAdapters.Get(namespace)
    }

    /**
     * The root folder of `namespace`: present exactly when the namespace is
     * given, non-empty and has an adapter mounted, and then it is the
     * namespace's own root folder.
     */
    function FetchRootFolder(namespace: Option<string>): (r: Option<Container>)
      requires Valid()
      reads this
      ensures r.Some? <==> namespace.Some? && namespace.value != "" && FetchAdapter(namespace.value).Some?
      ensures r.Some? ==> r.value == RootFolder(namespace.value)
    {
      if namespace.Some? && namespace.value != "" && namespace.value in namespaceFolders.values then
        Some(namespaceFolders.values[namespace.value])
      else
        None
    }

    /**
     * Registers `adapter` under `namespace` with a fresh root folder; the
     * namespace is no longer system-defined. A missing adapter changes nothing.
     */
    method Mount(namespace: string, adapter: Option<Adapter>)
      requires Valid()
      modifies this
      ensures Valid()
      ensures defaultNamespace == old(defaultNamespace)
      ensures adapter.None? ==>
        && namespaceAdapters == old(namespaceAdapters)
        && namespaceFolders == old(namespaceFolders)
        && systemDefinedNamespaces == old(systemDefinedNamespaces)
      ensures adapter.Some? ==>
        && namespaceAdapters == Put(old(namespaceAdapters), namespace, adapter.value)
        && namespaceFolders == Put(old(namespaceFolders), namespace, RootFolder(namespace))
        && systemDefinedNamespaces == old(systemDefinedNamespaces) - {namespace}
      ensures adapter.Some? ==> FetchAdapter(namespace) == adapter
    {
      if adapter.Some? {
        MountKeepsRegistryValid(namespaceAdapters, namespaceFolders, systemDefinedNamespaces, namespace, adapter.value);
        namespaceAdapters := Put(namespaceAdapters, namespace, adapter.value);
        namespaceFolders := Put(namespaceFolders, namespace, RootFolder(namespace));
        if namespace in systemDefinedNamespaces {
          systemDefinedNamespaces := systemDefinedNamespaces - {namespace};
        }
      }
    }

    /**
     * Removes `namespace` from both tables and from the system-defined set;
     * an absent namespace is left as it is. Unmounting `cdm` mounts the
     * resource adapter there in its place, last in the order.
     */
    method Unmount(namespace: string)
      requires Valid()
      modifies this
      ensures Valid()
      ensures defaultNamespace == old(defaultNamespace)
      ensures systemDefinedNamespaces == old(systemDefinedNamespaces) - {namespace}
      ensures namespace != "cdm" ==>
        && namespaceAdapters == Pop(old(namespaceAdapters), namespace)
        && namespaceFolders == Pop(old(namespaceFolders), namespace)
        && FetchAdapter(namespace) == None
      ensures namespace == "cdm" ==>
        && namespaceAdapters == Put(Pop(old(namespaceAdapters), namespace), namespace, ResourceAdapter)
        && namespaceFolders == Put(Pop(old(namespaceFolders), namespace), namespace, RootFolder(namespace))
        && FetchAdapter(namespace) == Some(ResourceAdapter)
        && namespaceAdapters.keys == Without(old(namespaceAdapters.keys), namespace) + [namespace]
    {
      UnmountKeepsRegistryValid(namespaceAdapters, namespaceFolders, systemDefinedNamespaces, namespace);
      namespaceAdapters := Pop(namespaceAdapters, namespace);
      namespaceFolders := Pop(namespaceFolders, namespace);
      if namespace in systemDefinedNamespaces {
        systemDefinedNamespaces := systemDefinedNamespaces - {namespace};
      }
      if namespace == "cdm" {
        PopPutMovesLast(old(namespaceAdapters), namespace, ResourceAdapter);
        Mount(namespace, Some(ResourceAdapter));
      }
    }

    /** The adapter at position `i` of the mount order understands `adapterPath`. */
    ghost predicate UnderstoodAt(i: int, adapterPath: string, createCorpusPath: (Adapter, string) -> Option<string>)
      reads this
    {
      && 0 <= i < |namespaceAdapters.keys|
      && namespaceAdapters.keys[i] in namespaceAdapters.values
      && Understood(createCorpusPath(namespaceAdapters.values[namespaceAdapters.keys[i]], adapterPath))
    }

    /**
     * Asks the mounted adapters, in mount order, to turn `adapterPath` into a
     * corpus path; the first that gives a non-empty answer wins and its
     * namespace is put in front. When none does, the result is the last
     * adapter's answer (None when nothing is mounted).
     */
    method AdapterPathToCorpusPath(adapterPath: string, createCorpusPath: (Adapter, string) -> Option<string>)
      returns (result: Option<string>)
      requires Valid()
      ensures forall i :: UnderstoodAt(i, adapterPath, createCorpusPath)
                && (forall j :: 0 <= j < i ==> !UnderstoodAt(j, adapterPath, createCorpusPath))
                ==> result == Some(namespaceAdapters.keys[i] + ":"
                                   + createCorpusPath(namespaceAdapters.values[namespaceAdapters.keys[i]], adapterPath).value)
      ensures (forall i :: 0 <= i < |namespaceAdapters.keys| ==> !UnderstoodAt(i, adapterPath, createCorpusPath)) ==>
                result == if namespaceAdapters.keys == [] then None
                          else createCorpusPath(namespaceAdapters.values[namespaceAdapters.keys[|namespaceAdapters.keys| - 1]],
                                                adapterPath)
    {
      result := None;
      var keys := namespaceAdapters.keys;
      var i := 0;
      while i < |keys|
        invariant 0 <= i <= |keys|
        invariant forall j :: 0 <= j < i ==> !UnderstoodAt(j, adapterPath, createCorpusPath)
        invariant result == if i == 0 then None else createCorpusPath(namespaceAdapters.values[keys[i - 1]], adapterPath)
      {
        var key := keys[i];
        result := createCorpusPath(namespaceAdapters.values[key], adapterPath);
        if Understood(result) {
          assert UnderstoodAt(i, adapterPath, createCorpusPath);
          result := Some(key + ":" + result.value);
          return;
        }
        i := i + 1;
      }
    }

    /**
     * Asks the adapter of the path's namespace (or of the default namespace
     * when the path names none) to turn the rest of the path into an adapter
     * path; None when that namespace has no adapter mounted.
     */
    function CorpusPathToAdapterPath(corpusPath: string, createAdapterPath: (Adapter, string) -> Option<string>): Option<string>
      reads this
    {
      var parts := SplitNamespacePath(corpusPath);
      var namespace := if parts.0 != "" then Some(parts.0) else defaultNamespace;
      if namespace.Some? && FetchAdapter(namespace.value).Some? then
        createAdapterPath(FetchAdapter(namespace.value).value, parts.1)
      else
        None
    }
  }

  /** A qualified corpus path is handed, without its namespace, to the adapter mounted for that namespace. */
  lemma CorpusPathUsesMountedAdapter(m: StorageManager, namespace: string, path: string,
                                     createAdapterPath: (Adapter, string) -> Option<string>)
    requires namespace != "" && ':' !in namespace
    ensures m.CorpusPathToAdapterPath(namespace + ":" + path, createAdapterPath)
         == if namespace in m.namespaceAdapters.values
            then createAdapterPath(m.namespaceAdapters.values[namespace], path)
            else None
  {
    assert namespace + ":" + path == namespace + [':'] + path;
    SplitJoinRoundTrip(namespace, path);
  }

  /** A path with no namespace goes to the default namespace's adapter, and to none when there is no default. */
  lemma CorpusPathUsesDefaultNamespace(m: StorageManager, path: string,
                                       createAdapterPath: (Adapter, string) -> Option<string>)
    requires ':' !in path
    ensures m.CorpusPathToAdapterPath(path, createAdapterPath)
         == if m.defaultNamespace.Some? && m.defaultNamespace.value in m.namespaceAdapters.values
            then createAdapterPath(m.namespaceAdapters.values[m.defaultNamespace.value], path)
            else None
  {
  }
}

/** Directory trees as they are stored in a repository. */
module Trees {
  import opened Repository

  /** The node types the model tells apart: "file", "dir", the special files ("symlink",
      "socket", "chardev", "dev", "fifo") and anything else. */
  datatype Kind = FileNode | DirNode | SpecialNode | UnknownNode

  /** A file without content may have no list at all, a directory may lack its tree. */
  datatype Node = Node(name: string, kind: Kind, content: Option<seq<Id>>, subtree: Option<Id>)

  const NULL_ID: Id := 0

  /** The trees that load, by their id. */
  type Forest = map<Id, seq<Node>>

  function ContentOf(n: Node): seq<Id> {
    if n.content.Some? then n.content.value else []
  }

  predicate HasSubtree(n: Node) {
    n.kind == DirNode && n.subtree.Some?
  }

  function DataHandles(n: Node): set<Handle> {
    if n.kind == FileNode then set id | id in ContentOf(n) :: Handle(id, DataBlob) else {}
  }

  function TreeHandle(id: Id): Handle {
    Handle(id, TreeBlob)
  }
}

/**
 * The configuration tree a Command points to (its cfg field, a
 * *map[string]interface{} shared by a command and its subcommands). The
 * decoders that fill it from a file and the dot-notation walk over nested maps
 * are not part of this model: the tree is a store from dot paths to text.
 */
module Config {
  import opened Base

  class ConfigTree {
    var entries: map<string, string>

    /** make(map[string]interface{}): an empty tree. */
    constructor ()
      ensures entries == map[]
    {
      entries := map[];
    }

    /** getValueByDotNotation: the text stored under a path, if any. */
    function Get(path: string): (r: Option<string>)
      reads this`entries
      ensures r.Some? <==> path in entries
      ensures r.Some? ==> r.value == entries[path]
    {
      if path in entries then Some(entries[path]) else None
    }

    /** setValueByDotNotation followed by the copy back into *fs.cfg. */
    method Put(path: string, value: string)
      modifies this`entries
      ensures entries == old(entries)[path := value]
    {
      entries := entries[path := value];
    }
  }
}

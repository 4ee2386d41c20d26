/** The sample-file registry AFM of docs/GMC_Audio.js: a dictionary from file
    name to object URL. The file `<input>` element is not modelled. */
module AudioFiles {
  import opened Wrappers

  function Lookup(m: map<string, string>, key: string): Option<string> {
    if key in m then Some(m[key]) else None
  }

  /** JavaScript's `a || b` on a looked-up string: `a` when it is defined
      and not empty, `b` otherwise. */
  function OrElse(a: Option<string>, b: string): string {
    if a.Some? && a.value != "" then a.value else b
  }

  /** The dictionary after `file2url[filename] = file2url[filename] || url`:
      a non-empty URL already stored for the name wins over the new one; no
      other name changes. */
  function Added(file2url: map<string, string>, filename: string, url: string): (m: map<string, string>)
    ensures m.Keys == file2url.Keys + {filename}
    ensures m[filename] == if filename in file2url && file2url[filename] != "" then file2url[filename] else url
    ensures forall f :: f in file2url && f != filename ==> m[f] == file2url[f]
  {
    file2url[filename := OrElse(Lookup(file2url, filename), url)]
  }

  /** First write wins: once a name holds a non-empty URL, adding it again
      with any URL changes nothing. */
  lemma AddedFirstWriteWins(file2url: map<string, string>, filename: string, first: string, second: string)
    requires first != ""
    ensures Added(Added(file2url, filename, first), filename, second) == Added(file2url, filename, first)
  {
  }

  class AFM {
    var file2url: map<string, string>

    constructor ()
      ensures file2url == map[]
    {
      file2url := map[];
    }

    method Add(filename: string, url: string)
      modifies this
      ensures file2url == Added(old(file2url), filename, url)
    {
      file2url := file2url[filename := OrElse(Lookup(file2url, filename), url)];
    }
  }
}

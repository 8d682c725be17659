// The removal of healings from a repaired JSON value (common/chat-parser.cpp:253-380): the recursive
// function that drops or cuts whatever the marker is in, with its shared path and flag.
module JsonCleaner {
  import opened Outcomes
  import opened Characters
  import opened ChatText

  datatype Field = Field(key: string, value: Json)

  datatype Json =
    | Null
    | Bool(b: bool)
    | Number(digits: string)           // as it is printed
    | String(text: string)
    | Array(items: seq<Json>)
    | Object(fields: seq<Field>)

  // ---------- printing a value ----------

  function EscapeChar(c: char): string {
    if c == '"' then "\\\""
    else if c == '\\' then "\\\\"
    else if c == 8 as char then "\\b"
    else if c == '\t' then "\\t"
    else if c == '\n' then "\\n"
    else if c == 12 as char then "\\f"
    else if c == '\r' then "\\r"
    else if c < ' ' then "\\u00" + [HexDigit(c as nat / 16), HexDigit(c as nat % 16)]
    else [c]
  }

  function Escaped(s: string): string {
    if s == "" then "" else EscapeChar(s[0]) + Escaped(s[1..])
  }

  function Quote(s: string): string {
    "\"" + Escaped(s) + "\""
  }

  function Dump(j: Json): string
    decreases j, 0
  {
    match j
    case Null => "null"
    case Bool(b) => if b then "true" else "false"
    case Number(digits) => digits
    case String(text) => Quote(text)
    case Array(items) => DumpItems(j, 0)
    case Object(fields) => DumpFields(j, 0)
  }

  // The printed items from item i on, with the character before them and the closing bracket.
  function DumpItems(j: Json, i: nat): string
    requires j.Array? && i <= |j.items|
    decreases j, 0, |j.items| - i
  {
    if i == |j.items| then (if i == 0 then "[]" else "]")
    else (if i == 0 then "[" else ",") + Dump(j.items[i]) + DumpItems(j, i + 1)
  }

  function DumpFields(j: Json, i: nat): string
    requires j.Object? && i <= |j.fields|
    decreases j, 0, |j.fields| - i
  {
    if i == |j.fields| then (if i == 0 then "{}" else "}")
    else (if i == 0 then "{" else ",") + Quote(j.fields[i].key) + ":" + Dump(j.fields[i].value) + DumpFields(j, i + 1)
  }

  predicate Contains(text: string, marker: string) {
    Find(text, marker, 0).Some?
  }

  // ---------- the function that cleans ----------

  // What it is called with: the parser's marker, the healing of the parsed value if there was one,
  // whether the message is partial, and the paths.
  datatype Config = Config(marker: string, healing: Option<string>, partial: bool,
                           argsPaths: seq<seq<string>>, contentPaths: seq<seq<string>>) {
    // The two markers in the parse result; both are empty when nothing was healed.
    function PartialMarker(): string {
      if healing.Some? then marker else ""
    }

    function DumpMarker(): string {
      if healing.Some? then healing.value else ""
    }
  }

  datatype Cleaned = Done(json: Json, path: seq<string>, found: bool) | Throws

  // Assignment to a key of an ordered object.
  function Put(fields: seq<Field>, key: string, value: Json): (r: seq<Field>)
    decreases |fields|
  {
    if fields == [] then [Field(key, value)]
    else if fields[0].key == key then [Field(key, value)] + fields[1..]
    else [fields[0]] + Put(fields[1..], key, value)
  }

  lemma {:induction false} PutNew(fields: seq<Field>, key: string, value: Json)
    requires forall i | 0 <= i < |fields| :: fields[i].key != key
    ensures Put(fields, key, value) == fields + [Field(key, value)]
    decreases |fields|
  {
    if fields != [] {
      PutNew(fields[1..], key, value);
      assert fields == [fields[0]] + fields[1..];
    }
  }

  function CutArguments(c: Config, text: string): (r: (string, bool)) {
    if c.partial && c.PartialMarker() != "" then
      var cut := Find(text, c.DumpMarker(), 0);
      var kept := if cut.Some? then text[..cut.value] else text;
      (if kept == "\"" then "" else kept, cut.Some?)
    else (text, false)
  }

  function Clean(c: Config, j: Json, path: seq<string>, found: bool): (r: Cleaned)
    ensures r.Done? ==> path <= r.path
    decreases j, 0
  {
    if path in c.argsPaths then
      var cut := CutArguments(c, Dump(j));
      Done(String(cut.0), path, found || cut.1)
    else if path in c.contentPaths then
      if !j.String? then Throws
      else
        var cut := Find(j.text, c.PartialMarker(), 0);
        if cut.Some? then Done(String(j.text[..cut.value]), path, true) else Done(j, path, found)
    else if j.Object? then CleanFields(c, j, 0, [], path, found)
    else if j.Array? then CleanItems(c, j, 0, [], path, found)
    else Done(j, path, found)
  }

  // The loop over the fields. A break leaves the key on the path.
  function CleanFields(c: Config, j: Json, i: nat, obj: seq<Field>, path: seq<string>, found: bool): (r: Cleaned)
    requires j.Object? && i <= |j.fields|
    ensures r.Done? ==> path <= r.path
    decreases j, 0, |j.fields| - i
  {
    if i == |j.fields| then Done(Object(obj), path, found)
    else
      var key, value := j.fields[i].key, j.fields[i].value;
      if Contains(key, c.marker) then Done(Object(obj), path, true)
      else if value.String? && Contains(value.text, c.marker) then
        if path + [key] in c.contentPaths && c.PartialMarker() == c.DumpMarker() then
          var r := Clean(c, value, path + [key], true);
          if r.Done? then Done(Object(Put(obj, key, r.json)), r.path, r.found) else Throws
        else Done(Object(obj), path + [key], true)
      else if value.String? then CleanFields(c, j, i + 1, Put(obj, key, value), path, found)
      else
        var r := Clean(c, value, path + [key], found);
        if r.Done? then CleanFields(c, j, i + 1, Put(obj, key, r.json), r.path[..|r.path| - 1], r.found) else Throws
  }

  function CleanItems(c: Config, j: Json, i: nat, arr: seq<Json>, path: seq<string>, found: bool): (r: Cleaned)
    requires j.Array? && i <= |j.items|
    ensures r.Done? ==> path <= r.path
    decreases j, 0, |j.items| - i
  {
    if i == |j.items| then Done(Array(arr), path, found)
    else if j.items[i].String? && Contains(j.items[i].text, c.marker) then Done(Array(arr), path, true)
    else
      var r := Clean(c, j.items[i], path, found);
      if r.Done? then CleanItems(c, j, i + 1, arr + [r.json], r.path, r.found) else Throws
  }

  class HealingRemover {
    const c: Config
    var path: seq<string>
    var found: bool

    constructor (c: Config)
      ensures this.c == c && path == [] && !found
    {
      this.c, path, found := c, [], false;
    }

    ghost predicate Agrees(r: Result<Json>, d: Cleaned)
      reads this
    {
      if d.Done? then r == Ok(d.json) && path == d.path && found == d.found else r.Raised?
    }

    method Remove(j: Json) returns (r: Result<Json>)
      modifies this
      ensures Agrees(r, Clean(c, j, old(path), old(found)))
      decreases j, 1
    {
      if path in c.argsPaths {
        var arguments := Dump(j);
        if c.partial && c.PartialMarker() != "" {
          var idx := Find(arguments, c.DumpMarker(), 0);
          if idx.Some? {
            arguments := arguments[..idx.value];
            found := true;
          }
          if arguments == "\"" {
            arguments := "";
          }
        }
        return Ok(String(arguments));
      }
      if path in c.contentPaths {
        if !j.String? {
          return Raised;
        }
        var idx := Find(j.text, c.PartialMarker(), 0);
        if idx.Some? {
          found := true;
          return Ok(String(j.text[..idx.value]));
        }
        return Ok(j);
      }
      if j.Object? {
        r := RemoveFromObject(j);
      } else if j.Array? {
        r := RemoveFromArray(j);
      } else {
        r := Ok(j);
      }
    }

    method RemoveFromObject(j: Json) returns (r: Result<Json>)
      requires j.Object?
      modifies this
      ensures Agrees(r, CleanFields(c, j, 0, [], old(path), old(found)))
      decreases j, 0
    {
      var obj, i := [], 0;
      while i < |j.fields|
        invariant i <= |j.fields|
        invariant CleanFields(c, j, i, obj, path, found) == CleanFields(c, j, 0, [], old(path), old(found))
      {
        var key, value := j.fields[i].key, j.fields[i].value;
        if Contains(key, c.marker) {
          found := true;
          break;
        }
        path := path + [key];
        if value.String? {
          if Contains(value.text, c.marker) {
            found := true;
            if path in c.contentPaths {
              if c.PartialMarker() == c.DumpMarker() {
                var v := Remove(value);
                if v.Raised? {
                  return v;
                }
                obj := Put(obj, key, v.value);
              }
            }
            break;
          }
          obj := Put(obj, key, value);
        } else {
          var v := Remove(value);
          if v.Raised? {
            return v;
          }
          obj := Put(obj, key, v.value);
        }
        path := path[..|path| - 1];
        i := i + 1;
      }
      r := Ok(Object(obj));
    }

    method RemoveFromArray(j: Json) returns (r: Result<Json>)
      requires j.Array?
      modifies this
      ensures Agrees(r, CleanItems(c, j, 0, [], old(path), old(found)))
      decreases j, 0
    {
      var arr, i := [], 0;
      while i < |j.items|
        invariant i <= |j.items|
        invariant CleanItems(c, j, i, arr, path, found) == CleanItems(c, j, 0, [], old(path), old(found))
      {
        if j.items[i].String? && Contains(j.items[i].text, c.marker) {
          found := true;
          break;
        }
        var v := Remove(j.items[i]);
        if v.Raised? {
          return v;
        }
        arr := arr + [v.value];
        i := i + 1;
      }
      r := Ok(Array(arr));
    }
  }
}

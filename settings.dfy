/**
 * The site settings as the contact page and the floating social buttons read
 * them (src/pages/Contact.tsx, src/components/SocialFloatingButtons.tsx):
 * key/value rows folded into a map, read with a fallback for each key.
 */
module SiteSettings {
  import opened Wrappers

  /** A row of the settings table. */
  datatype Row = Row(key: string, value: string)

  /** Some row carries this key. */
  predicate HasKey(rows: seq<Row>, key: string) {
    exists i :: 0 <= i < |rows| && rows[i].key == key
  }

  /** The `reduce` that spreads each row into the accumulated object, from the first row to the last. */
  function FromRows(rows: seq<Row>): (r: map<string, string>)
    ensures forall key :: key in r <==> HasKey(rows, key)
    decreases |rows|
  {
    if rows == [] then map[]
    else
      var front, last := rows[..|rows| - 1], rows[|rows| - 1];
      var r := FromRows(front)[last.key := last.value];
      assert forall key :: HasKey(front, key) ==> HasKey(rows, key) by {
        forall key | HasKey(front, key) ensures HasKey(rows, key) {
          var i :| 0 <= i < |front| && front[i].key == key;
          assert rows[i] == front[i];
        }
      }
      assert forall key :: HasKey(rows, key) ==> key == last.key || HasKey(front, key) by {
        forall key | HasKey(rows, key) && key != last.key ensures HasKey(front, key) {
          var i :| 0 <= i < |rows| && rows[i].key == key;
          assert i < |front| && front[i] == rows[i];
        }
      }
      r
  }

  /** The value a key ends up with is that of the last row carrying it: later rows win. */
  lemma {:induction false} LastRowWins(rows: seq<Row>, i: nat)
    requires i < |rows|
    requires forall j :: i < j < |rows| ==> rows[j].key != rows[i].key
    ensures rows[i].key in FromRows(rows) && FromRows(rows)[rows[i].key] == rows[i].value
    decreases |rows|
  {
    var front := rows[..|rows| - 1];
    if i < |rows| - 1 {
      assert front[i] == rows[i];
      LastRowWins(front, i);
    }
  }

  /** The settings a page holds: the folded rows, or the empty object when the query returned no data. */
  function Loaded(data: Option<seq<Row>>): (r: map<string, string>)
    ensures data.None? ==> r == map[]
    ensures data.Some? ==> forall key :: key in r <==> HasKey(data.value, key)
  {
    if data.Some? then FromRows(data.value) else map[]
  }

  /** `settings[key] || fallback`: the setting when it is present and not empty, the fallback otherwise. */
  function Lookup(settings: map<string, string>, key: string, fallback: string): (r: string)
    ensures key in settings && settings[key] != [] ==> r == settings[key]
    ensures key !in settings || settings[key] == [] ==> r == fallback
  {
    if key in settings && settings[key] != [] then settings[key] else fallback
  }

  /** A lookup is never empty when its fallback is not. */
  lemma LookupNonEmpty(settings: map<string, string>, key: string, fallback: string)
    requires fallback != []
    ensures Lookup(settings, key, fallback) != []
  {
  }

  /** Without data every lookup gives its fallback. */
  lemma NoDataGivesFallbacks(key: string, fallback: string)
    ensures Lookup(Loaded(None), key, fallback) == fallback
  {
  }

  /** A non-empty value in the last row with its key is what the lookup gives. */
  lemma LookupSeesLastRow(rows: seq<Row>, i: nat, fallback: string)
    requires i < |rows| && rows[i].value != []
    requires forall j :: i < j < |rows| ==> rows[j].key != rows[i].key
    ensures Lookup(Loaded(Some(rows)), rows[i].key, fallback) == rows[i].value
  {
    LastRowWins(rows, i);
  }
}

/** `enumerate_credit_lines`: pages over the stable ids, with an exclusive cursor. */
module Enumeration {
  import opened Prelude
  import opened Accrual

  const MAX_ENUMERATION_LIMIT: int := 100

  datatype Entry = Entry(id: int, line: Line)

  /** Every stored line with an id of at least `from`, in id order. */
  function Entries(lines: map<Address, Line>, ids: seq<Address>, from: nat): seq<Entry>
    decreases |ids| - from
  {
    if from >= |ids| then []
    else if ids[from] in lines then [Entry(from, lines[ids[from]])] + Entries(lines, ids, from + 1)
    else Entries(lines, ids, from + 1)
  }

  function FirstId(startAfter: Option<u32>): u32 {
    if startAfter.Some? then Min(startAfter.value + 1, U32_MAX) else 0
  }

  /** One page: the first entries past the cursor, up to the capped limit. */
  function Page(lines: map<Address, Line>, ids: seq<Address>, startAfter: Option<u32>, limit: u32): seq<Entry> {
    var rest := Entries(lines, ids, FirstId(startAfter));
    rest[..Min(Min(limit, MAX_ENUMERATION_LIMIT), |rest|)]
  }

  /** Paging on from the last id seen, until a page comes back empty. */
  function Walk(lines: map<Address, Line>, ids: seq<Address>, startAfter: Option<u32>, limit: u32): seq<Entry>
    requires |ids| <= U32_MAX
    decreases |ids| - FirstId(startAfter)
  {
    var page := Page(lines, ids, startAfter, limit);
    if page == [] then []
    else
      EntryIds(lines, ids, FirstId(startAfter), |page| - 1);
      page + Walk(lines, ids, Some(page[|page| - 1].id), limit)
  }

  lemma EntryIds(lines: map<Address, Line>, ids: seq<Address>, from: nat, k: nat)
    requires k < |Entries(lines, ids, from)|
    ensures var e := Entries(lines, ids, from)[k];
      from <= e.id < |ids| && ids[e.id] in lines && e.line == lines[ids[e.id]]
    ensures Entries(lines, ids, Entries(lines, ids, from)[k].id + 1) == Entries(lines, ids, from)[k + 1..]
    decreases |ids| - from
  {
    if from < |ids| {
      if ids[from] in lines {
        if k > 0 {
          EntryIds(lines, ids, from + 1, k - 1);
        }
      } else {
        EntryIds(lines, ids, from + 1, k);
      }
    }
  }

  /** A page holds at most 100 entries, at most `limit`, and falls short of both only
      at the end. */
  lemma PageSize(lines: map<Address, Line>, ids: seq<Address>, startAfter: Option<u32>, limit: u32)
    ensures var page, rest := Page(lines, ids, startAfter, limit), Entries(lines, ids, FirstId(startAfter));
      && page <= rest && |page| <= 100 && |page| <= limit
      && (|page| < limit && |page| < 100 ==> page == rest)
  {
  }

  /** Whatever the page size, walking the pages visits every line past the cursor
      exactly once, in id order. */
  lemma {:induction false} PagesCoverAll(lines: map<Address, Line>, ids: seq<Address>, startAfter: Option<u32>, limit: u32)
    requires |ids| <= U32_MAX && 0 < limit
    ensures Walk(lines, ids, startAfter, limit) == Entries(lines, ids, FirstId(startAfter))
    decreases |ids| - FirstId(startAfter)
  {
    var rest := Entries(lines, ids, FirstId(startAfter));
    var page := Page(lines, ids, startAfter, limit);
    if page != [] {
      var last := page[|page| - 1].id;
      EntryIds(lines, ids, FirstId(startAfter), |page| - 1);
      PagesCoverAll(lines, ids, Some(last), limit);
      assert rest == rest[..|page|] + rest[|page|..];
    }
  }
}

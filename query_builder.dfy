/**
 * `query_builder::SearchQueryBuilder` (src/utils.rs): accumulates
 * ` AND ...` conditions, numbering the `?` of each one with the next
 * `$k` placeholder.
 */
module QueryBuilder {
  import opened Wrappers
  import opened StdStr

  /** The text `$k` that stands for the k-th bound value. */
  function Placeholder(k: nat): (r: string)
    ensures !Contains(r, "?")
  {
    PlaceholderHasNoQuestionMark(k);
    "$" + NatToString(k)
  }

  lemma PlaceholderHasNoQuestionMark(k: nat)
    ensures !Contains("$" + NatToString(k), "?")
  {
    var r := "$" + NatToString(k);
    assert "?"[0] !in r;
    if Contains(r, "?") {
      ContainsHasFirstChar(r, "?");
    }
  }

  class SearchQueryBuilder {
    var baseQuery: string
    var conditions: seq<string>
    var bindCount: nat
    /** The condition text each entry of `conditions` was made from. */
    ghost var templates: seq<string>

    /**
     * One condition per bound value, the k-th (from 0) rendered from the k-th
     * template with every `?` replaced by `$(k+1)`, so no `?` is left.
     */
    ghost predicate Valid()
      reads this
    {
      && bindCount == |conditions| == |templates|
      && (forall k :: 0 <= k < |conditions| ==>
            conditions[k] == " AND " + Replace(templates[k], "?", Placeholder(k + 1)))
      && (forall k :: 0 <= k < |conditions| ==> !Contains(conditions[k], "?"))
    }

    constructor (baseQuery: string)
      ensures Valid()
      ensures this.baseQuery == baseQuery && conditions == [] && bindCount == 0
    {
      this.baseQuery := baseQuery;
      conditions := [];
      bindCount := 0;
      templates := [];
    }

    /** `add_condition`: returns the new bind count, which is the placeholder number it used. */
    method AddCondition(condition: string) returns (count: nat)
      requires Valid()
      modifies this
      ensures Valid()
      ensures count == bindCount == old(bindCount) + 1
      ensures conditions == old(conditions) + [" AND " + Replace(condition, "?", Placeholder(count))]
      ensures templates == old(templates) + [condition]
      ensures baseQuery == old(baseQuery)
    {
      bindCount := bindCount + 1;
      var rendered := Replace(condition, "?", Placeholder(bindCount));
      assert Disjoint("?", Placeholder(bindCount));
      ReplaceRemoves(condition, "?", Placeholder(bindCount));
      if Contains(" AND " + rendered, "?") {
        ContainsSkipsPrefix(" AND ", rendered, "?");
      }
      conditions := conditions + [" AND " + rendered];
      templates := templates + [condition];
      count := bindCount;
    }

    /** `add_optional_condition`: adds the condition only when a value is present. */
    method AddOptionalCondition<T>(condition: string, value: Option<T>) returns (r: Option<nat>)
      requires Valid()
      modifies this
      ensures Valid()
      ensures value.None? ==> r.None? && unchanged(this)
      ensures value.Some? ==>
        (&& r == Some(bindCount)
         && bindCount == old(bindCount) + 1
         && conditions == old(conditions) + [" AND " + Replace(condition, "?", Placeholder(bindCount))])
      ensures baseQuery == old(baseQuery)
    {
      if value.Some? {
        var count := AddCondition(condition);
        r := Some(count);
      } else {
        r := None;
      }
    }

    /** `build`: the base query, the conditions in the order added, then an optional ` ORDER BY`. */
    method Build(orderBy: Option<string>) returns (query: string)
      ensures query == baseQuery + Concat(conditions)
        + (if orderBy.Some? then " ORDER BY " + orderBy.value else "")
    {
      query := baseQuery;
      if |conditions| != 0 {
        query := query + Concat(conditions);
      }
      if orderBy.Some? {
        query := query + " ORDER BY " + orderBy.value;
      }
    }

    /** `bind_count` */
    function BindCount(): (r: nat)
      reads this
      ensures Valid() ==> r == |conditions|
    {
      bindCount
    }
  }
}

/**
 * The plugin's entry file: the check that switches the plugin off when a
 * plugin known to break it is active, and the registration of the two
 * payment methods with WooCommerce.
 */
module Plugin {
  import opened PhpStrings
  import opened PhpArrays

  /** The plugins known to be incompatible: slug and display name. */
  const SequentialSlug := "woocommerce-sequential-order-numbers"
  const SequentialName := "WooCommerce Sequential Order Numbers"
  const IncompatiblePlugins: Assoc<string, string> := [(SequentialSlug, SequentialName)]

  const HostedClass := "WC_Paymentsense_Hosted"
  const DirectClass := "WC_Paymentsense_Direct"

  const WarningHead := "Warning: Paymentsense Gateway for WooCommerce plugin is incompatible with the following plugin(s): "
  const DeactivatedText := "As a result of that Paymentsense Gateway for WooCommerce is deactivated."
  const DoubleBreak := "<br/><br/>"
  const GoBack := "&laquo; Go Back"

  /** A plugin's slug: its path up to the first '/' (`explode('/', $path)[0]`). */
  function Slug(path: string): string
  {
    Split(path, '/')[0]
  }

  /** A match as the list shows it: the display name in double quotes. */
  function Quoted(name: string): (r: string)
    ensures |r| == |name| + 2
  {
    "\"" + name + "\""
  }

  /** The quoted names of the active plugins whose slug is listed, in active-plugin order. */
  function Matches(active: seq<string>): seq<string>
  {
    if active == [] then []
    else
      var last := active[|active| - 1];
      Matches(active[..|active| - 1]) +
      match Lookup(IncompatiblePlugins, Slug(last))
      case Some(name) => [Quoted(name)]
      case None => []
  }

  /**
   * `get_incompatible_plugins`: the quoted names of the matches, the
   * first taken as it is and each later one appended after ", ".
   */
  method GetIncompatiblePlugins(active: seq<string>) returns (found: string)
    ensures found == Join(", ", Matches(active))
  {
    found := "";
    var i := 0;
    while i < |active|
      invariant 0 <= i <= |active|
      invariant found == Join(", ", Matches(active[..i]))
      decreases |active| - i
    {
      MatchesSnoc(active, i);
      var entry := Lookup(IncompatiblePlugins, Slug(active[i]));
      ghost var before := Matches(active[..i]);
      if entry.Some? {
        var text := Quoted(entry.value);
        assert Matches(active[..i + 1]) == before + [text];
        MatchesQuoted(active[..i]);
        JoinEmptyIff(before);
        if PhpEmpty(found) {
          assert before == [];
          found := text;
          assert Matches(active[..i + 1]) == [text];
          assert found == Join(", ", [text]);
        } else {
          JoinSnoc(", ", before, text);
          found := found + ", " + text;
          assert found == Join(", ", before + [text]);
        }
      } else {
        assert Matches(active[..i + 1]) == before + [];
        assert before + [] == before;
      }
      i := i + 1;
    }
    assert active[..|active|] == active;
  }

  /** The page `wp_die` shows after switching the plugin off; pluginsUrl is the admin plugins page. */
  function DeactivationMessage(found: string, pluginsUrl: string): string
  {
    "<strong>" + WarningHead + found + "." + DoubleBreak + DeactivatedText + "</strong>" +
    DoubleBreak + "<a href=\"" + pluginsUrl + "\">" + GoBack + "</a>"
  }

  /** What the compatibility check does: nothing, or switch the plugin off and stop with a message. */
  datatype Compatibility = Compatible | Deactivated(message: string)

  /** `paymentsense_check_compatibility`: the plugin is switched off only when the list is not empty. */
  method CheckCompatibility(active: seq<string>, pluginsUrl: string) returns (r: Compatibility)
    ensures r.Deactivated? <==> Matches(active) != []
    ensures r.Deactivated? ==> r.message == DeactivationMessage(Join(", ", Matches(active)), pluginsUrl)
  {
    var found := GetIncompatiblePlugins(active);
    MatchesQuoted(active);
    JoinEmptyIff(Matches(active));
    if !PhpEmpty(found) {
      r := Deactivated(DeactivationMessage(found, pluginsUrl));
    } else {
      r := Compatible;
    }
  }

  /** `woocommerce_add_paymentsense_gateways`: the hosted method, then the direct one, appended. */
  method AddGateways(methods: seq<string>) returns (r: seq<string>)
    ensures |r| == |methods| + 2 && r[..|methods|] == methods
    ensures r[|methods|] == HostedClass && r[|methods| + 1] == DirectClass
  {
    r := methods;
    r := r + [HostedClass];
    r := r + [DirectClass];
  }

  // ---------------------------------------------------------------------------
  // Properties
  // ---------------------------------------------------------------------------

  /**
   * The list is never a string PHP's empty() accepts unless nothing matched:
   * joined quoted names are at least two characters long.
   */
  lemma {:induction false} JoinEmptyIff(parts: seq<string>)
    requires forall i :: 0 <= i < |parts| ==> |parts[i]| >= 2
    ensures PhpEmpty(Join(", ", parts)) <==> parts == []
    ensures parts != [] ==> |Join(", ", parts)| >= 2
    decreases |parts|
  {
    if |parts| > 1 {
      JoinEmptyIff(parts[1..]);
    }
  }

  /** Every entry of the matches is a quoted name, so the empty() test and the join agree. */
  lemma {:induction false} MatchesQuoted(active: seq<string>)
    ensures forall i :: 0 <= i < |Matches(active)| ==> |Matches(active)[i]| >= 2
    decreases |active|
  {
    if active != [] {
      MatchesQuoted(active[..|active| - 1]);
    }
  }

  /**
   * The list is empty exactly when no active plugin's slug is in the table;
   * a plugin matches by the part of its path before the first '/'.
   */
  lemma {:induction false} MatchesEmptyIff(active: seq<string>)
    ensures Matches(active) == [] <==> forall i :: 0 <= i < |active| ==> !HasKey(IncompatiblePlugins, Slug(active[i]))
    decreases |active|
  {
    if active != [] {
      var init := active[..|active| - 1];
      MatchesEmptyIff(init);
      var last := active[|active| - 1];
      LookupTail(IncompatiblePlugins, Slug(last));
      assert forall i :: 0 <= i < |init| ==> init[i] == active[i];
    }
  }

  lemma MatchesSnoc(active: seq<string>, i: nat)
    requires i < |active|
    ensures Matches(active[..i + 1]) == Matches(active[..i]) +
      match Lookup(IncompatiblePlugins, Slug(active[i]))
      case Some(name) => [Quoted(name)]
      case None => []
  {
    assert active[..i + 1][..i] == active[..i];
    assert active[..i + 1][i] == active[i];
  }

  /** A path's slug is what precedes its first '/', or the whole path when it has none. */
  lemma SlugOf(dir: string, rest: string)
    requires NoChar(dir, '/')
    ensures Slug(dir + "/" + rest) == dir
    ensures Slug(dir) == dir
  {
    SplitPrefix(dir, '/', rest);
    SplitNoSeparator(dir, '/');
  }

  /**
   * A listed plugin is reported under its display name, whatever its main
   * file: after plugins that match nothing, the list holds just its name.
   */
  lemma ListedPluginReported(before: seq<string>, dir: string, file: string, name: string)
    requires forall i :: 0 <= i < |before| ==> !HasKey(IncompatiblePlugins, Slug(before[i]))
    requires NoChar(dir, '/') && Lookup(IncompatiblePlugins, dir) == Some(name)
    ensures Matches(before + [dir + "/" + file]) == [Quoted(name)]
  {
    SlugOf(dir, file);
    MatchesEmptyIff(before);
    var active := before + [dir + "/" + file];
    assert active[..|active| - 1] == before;
  }

  /** The table names the sequential-order-numbers plugin under its display name. */
  lemma SequentialOrderNumbersListed()
    ensures Lookup(IncompatiblePlugins, SequentialSlug) == Some(SequentialName)
    ensures forall slug :: slug != SequentialSlug ==> Lookup(IncompatiblePlugins, slug) == None
  {
    forall slug | slug != SequentialSlug
      ensures Lookup(IncompatiblePlugins, slug) == None
    {
      LookupTail(IncompatiblePlugins, slug);
      assert IncompatiblePlugins[1..] == [];
    }
    LookupTail(IncompatiblePlugins, SequentialSlug);
  }
}

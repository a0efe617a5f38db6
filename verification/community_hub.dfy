/**
 * The community hub's own logic: composing class names, formatting a subscription
 * tier for display, who counts as pending or premium, splitting the community links
 * into premium groups and social channels, loading them, and joining one.
 *
 * A missing tier, user id or class is the empty string or `None`: the hub only ever
 * tests them for truthiness.
 */
module CommunityHub {
  import opened Wrappers
  import opened Text
  import opened Seqs

  // ---------------------------------------------------------------------------
  // Class names
  // ---------------------------------------------------------------------------

  /** A class argument: `None` for `false`, `undefined` and `null`. */
  type ClassArg = Option<string>

  predicate Truthy(c: ClassArg) { c.Some? && c.value != "" }

  function ClassText(c: ClassArg): string { if c.Some? then c.value else "" }

  /** The truthy class names, in order. */
  function Kept(classes: seq<ClassArg>): (r: seq<string>)
    ensures |r| <= |classes|
    ensures forall i :: 0 <= i < |r| ==> r[i] != "" && Some(r[i]) in classes
    ensures forall c :: c in classes && Truthy(c) ==> c.value in r
    ensures |r| == |Indices(classes, Truthy)|
    ensures IsSubsequence(r, Map(classes, ClassText))
  {
    var truthy := Filter(classes, Truthy);
    CountIndices(classes, Truthy);
    FilterIsSubsequence(classes, Truthy);
    TextsInOrder(truthy, classes);
    TruthyTextsKept(classes);
    Map(truthy, ClassText)
  }

  /** Every truthy argument's name is among the texts of the truthy arguments. */
  lemma TruthyTextsKept(classes: seq<ClassArg>)
    ensures forall c :: c in classes && Truthy(c) ==> c.value in Map(Filter(classes, Truthy), ClassText)
  {
    var truthy := Filter(classes, Truthy);
    forall c | c in classes && Truthy(c) ensures c.value in Map(truthy, ClassText) {
      var k :| 0 <= k < |truthy| && truthy[k] == c;
      assert Map(truthy, ClassText)[k] == c.value;
    }
  }

  /** The texts of truthy arguments taken in order stay in order among all the texts. */
  lemma {:induction false} TextsInOrder(a: seq<ClassArg>, b: seq<ClassArg>)
    requires IsSubsequence(a, b)
    requires forall i :: 0 <= i < |a| ==> Truthy(a[i])
    ensures IsSubsequence(Map(a, ClassText), Map(b, ClassText))
    decreases |b|
  {
    if |a| > 0 {
      assert Map(b, ClassText)[1..] == Map(b[1..], ClassText);
      assert Map(a, ClassText)[1..] == Map(a[1..], ClassText);
      if a[0] == b[0] {
        TextsInOrder(a[1..], b[1..]);
      } else {
        assert ClassText(b[0]) != ClassText(a[0]);
        TextsInOrder(a, b[1..]);
      }
    }
  }

  /** `cx(...)`: the truthy class names joined with single spaces. */
  function Cx(classes: seq<ClassArg>): (r: string)
    ensures Kept(classes) == [] ==> r == ""
    ensures |Kept(classes)| == 1 ==> r == Kept(classes)[0]
  {
    Join(Kept(classes), " ")
  }

  /**
   * Splitting the composed string on spaces gives back exactly the truthy class
   * names, when none of them holds a space itself.
   */
  lemma CxSplitsBack(classes: seq<ClassArg>)
    requires Kept(classes) != []
    requires forall i :: 0 <= i < |classes| && classes[i].Some? ==> ' ' !in classes[i].value
    ensures Split(Cx(classes), ' ') == Kept(classes)
  {
    var kept := Kept(classes);
    forall k | 0 <= k < |kept| ensures ' ' !in kept[k] {
      var i :| 0 <= i < |classes| && classes[i] == Some(kept[k]);
    }
    SplitJoin(kept, ' ');
  }

  /** A falsy argument anywhere leaves the composed string as it would be without it. */
  lemma CxIgnoresFalsy(a: seq<ClassArg>, c: ClassArg, b: seq<ClassArg>)
    requires !Truthy(c)
    ensures Cx(a + [c] + b) == Cx(a + b)
  {
    FilterAppend(a + [c], b, Truthy);
    FilterAppend(a, [c], Truthy);
    FilterAppend(a, b, Truthy);
    assert [c][1..] == [];
    assert Filter([c], Truthy) == [];
    assert Filter(a + [c], Truthy) == Filter(a, Truthy);
  }

  // ---------------------------------------------------------------------------
  // Tier names
  // ---------------------------------------------------------------------------

  const PendingSuffix := "-pending"
  const FreeName := "Free"

  /** Position `i` starts a word: a non-space at the start or right after white space. */
  predicate WordStart(t: string, i: int)
    requires 0 <= i < |t|
  {
    !IsWhite(t[i]) && (i == 0 || IsWhite(t[i - 1]))
  }

  /** `t.replace(/(^|\s)\S/g, u => u.toUpperCase())`: every word's first letter in upper case. */
  function Capitalize(t: string): (r: string)
    ensures |r| == |t|
    ensures forall i :: 0 <= i < |t| ==> r[i] == if WordStart(t, i) then UpperChar(t[i]) else t[i]
  {
    seq(|t|, i requires 0 <= i < |t| => if WordStart(t, i) then UpperChar(t[i]) else t[i])
  }

  /** Capitalising changes letter case only. */
  lemma CapitalizeKeepsLetters(t: string)
    ensures ToLower(Capitalize(t)) == ToLower(t)
  {
  }

  /** Capitalising twice is capitalising once. */
  lemma CapitalizeIdempotent(t: string)
    ensures Capitalize(Capitalize(t)) == Capitalize(t)
  {
    var c := Capitalize(t);
    forall i | 0 <= i < |t| ensures IsWhite(c[i]) == IsWhite(t[i]) {
    }
  }

  /** The display name of a tier: "Free" without one, else the first "-pending" dropped and capitalised. */
  function FormatTierName(tier: string): (r: string)
    ensures tier == "" ==> r == FreeName
    ensures tier != "" ==> r == Capitalize(ReplaceFirst(tier, PendingSuffix, ""))
  {
    if tier == "" then FreeName else Capitalize(ReplaceFirst(tier, PendingSuffix, ""))
  }

  /** A tier without the pending marker is shown as itself, capitalised. */
  lemma SettledTierName(tier: string)
    requires tier != "" && !Includes(tier, PendingSuffix)
    ensures FormatTierName(tier) == Capitalize(tier)
    ensures ToLower(FormatTierName(tier)) == ToLower(tier)
  {
    CapitalizeKeepsLetters(tier);
  }

  /** Where the pending marker occurs, a hyphen stands. */
  lemma HyphenAt(t: string, j: int)
    requires MatchAt(t, PendingSuffix, j)
    ensures 0 <= j < |t| && t[j] == '-'
  {
    assert t[j..j + |PendingSuffix|][0] == '-';
  }

  /**
   * A pending tier is shown as its settled tier: for a base name without a hyphen,
   * "base-pending" displays exactly as "base" does.
   */
  lemma PendingTierName(base: string)
    requires base != "" && '-' !in base
    ensures FormatTierName(base + PendingSuffix) == FormatTierName(base)
  {
    var s := base + PendingSuffix;
    assert MatchAt(s, PendingSuffix, |base|) by {
      assert s[|base|..|base| + |PendingSuffix|] == PendingSuffix;
    }
    forall j | 0 <= j < |base| ensures !MatchAt(s, PendingSuffix, j) {
      if MatchAt(s, PendingSuffix, j) {
        HyphenAt(s, j);
      }
    }
    forall j | 0 <= j <= |base| - |PendingSuffix| ensures !MatchAt(base, PendingSuffix, j) {
      if MatchAt(base, PendingSuffix, j) {
        HyphenAt(base, j);
      }
    }
    assert ReplaceFirst(s, PendingSuffix, "") == base;
  }

  // ---------------------------------------------------------------------------
  // Access
  // ---------------------------------------------------------------------------

  /** A tier carrying the pending marker: an application awaiting approval. */
  predicate IsPendingUser(tier: string) {
    tier != "" && Includes(tier, PendingSuffix)
  }

  predicate HasPremiumAccess(tier: string) {
    tier != "" && !IsPendingUser(tier)
  }

  /**
   * Nobody is both pending and premium; without a tier one is neither; with a tier
   * one is exactly one of the two.
   */
  lemma AccessExclusive(tier: string)
    ensures !(IsPendingUser(tier) && HasPremiumAccess(tier))
    ensures tier == "" ==> !IsPendingUser(tier) && !HasPremiumAccess(tier)
    ensures tier != "" ==> IsPendingUser(tier) || HasPremiumAccess(tier)
  {
  }

  // ---------------------------------------------------------------------------
  // Links
  // ---------------------------------------------------------------------------

  datatype CommunityLink = CommunityLink(platformKey: string, platformName: string, linkUrl: string)

  const PremiumKeys := ["telegram", "whatsapp"]

  predicate IsPremium(l: CommunityLink) { l.platformKey in PremiumKeys }

  predicate IsSocial(l: CommunityLink) { l.platformKey !in PremiumKeys }

  /** The premium groups: the links on Telegram or WhatsApp, in order. */
  function PremiumLinks(links: seq<CommunityLink>): (r: seq<CommunityLink>)
    ensures IsSubsequence(r, links)
    ensures forall l :: l in r <==> l in links && l.platformKey in PremiumKeys
  {
    FilterIsSubsequence(links, IsPremium);
    Filter(links, IsPremium)
  }

  /** The social channels: every other link, in order. */
  function SocialLinks(links: seq<CommunityLink>): (r: seq<CommunityLink>)
    ensures IsSubsequence(r, links)
    ensures forall l :: l in r <==> l in links && l.platformKey !in PremiumKeys
  {
    FilterIsSubsequence(links, IsSocial);
    Filter(links, IsSocial)
  }

  /** Each link is in exactly one of the two lists, and together they hold every link. */
  lemma LinksPartitioned(links: seq<CommunityLink>)
    ensures multiset(PremiumLinks(links)) + multiset(SocialLinks(links)) == multiset(links)
    ensures forall l :: l in PremiumLinks(links) ==> l !in SocialLinks(links)
  {
    FilterPartition(links, IsPremium, IsSocial);
  }

  // ---------------------------------------------------------------------------
  // Loading and joining
  // ---------------------------------------------------------------------------

  /** The hub's notices. */
  datatype Toast = PendingNotice | Welcome(platformName: string) | OpenFailed {
    function Text(): string {
      match this
      case PendingNotice => "Your application is pending — approval required to join premium groups."
      case Welcome(name) => "Welcome to " + name + "! Opening..."
      case OpenFailed => "Could not open link. Try again."
    }
  }

  const LoadFailed := "Could not load community links. Try again later."

  datatype HubState = HubState(
    links: seq<CommunityLink>, loading: bool, error: Option<string>,
    joinLoadingFor: Option<string>, confetti: nat, toast: Option<Toast>)

  /**
   * The outcome of loading the links: the service's list (`None` for a null list),
   * or a failure.
   */
  datatype LinksReply = Loaded(list: Option<seq<CommunityLink>>) | LoadThrew

  /**
   * Loading the links: a null list is an empty one, a failure sets the error and
   * keeps the links; a reply after unmounting is dropped. Loading ends either way.
   */
  function LoadLinks(st: HubState, reply: LinksReply, mounted: bool): (r: HubState)
    ensures !r.loading
    ensures reply.Loaded? && mounted ==> r == st.(loading := false, links := reply.list.GetOr([]))
    ensures reply.Loaded? && !mounted ==> r == st.(loading := false)
    ensures reply.LoadThrew? ==> r == st.(loading := false, error := Some(LoadFailed))
  {
    match reply
    case Loaded(list) => if mounted then st.(links := list.GetOr([]), loading := false) else st.(loading := false)
    case LoadThrew => st.(error := Some(LoadFailed), loading := false)
  }

  /** Once the hub has unmounted, no reply to a load changes the links it shows. */
  lemma UnmountedKeepsLinks(st: HubState, reply: LinksReply)
    ensures LoadLinks(st, reply, false).links == st.links
    ensures LoadLinks(st, reply, false).toast == st.toast
  {
  }

  /** A failed load never changes the links, mounted or not. */
  lemma FailedLoadKeepsLinks(st: HubState, mounted: bool)
    ensures LoadLinks(st, LoadThrew, mounted).links == st.links
    ensures LoadLinks(st, LoadThrew, mounted).error == Some(LoadFailed)
  {
  }

  /** Delivering the same reply twice leaves the hub as delivering it once. */
  lemma LoadLinksIdempotent(st: HubState, reply: LinksReply, mounted: bool)
    ensures LoadLinks(LoadLinks(st, reply, mounted), reply, mounted) == LoadLinks(st, reply, mounted)
  {
  }

  /** What a join asks of the outside world, in the order it asks. */
  datatype Effect = RecordPlatform(userId: string, platformKey: string) | NotifyParent(platformKey: string) | OpenLink(url: string)

  datatype JoinStep = JoinStep(state: HubState, effects: seq<Effect>)

  /**
   * Joining a community. A pending user only sees the pending notice. Anyone else
   * gets confetti and a welcome, the platform is recorded for a signed-in user, the
   * parent's callback hears of it, and the link opens; if the callback or the opening
   * throws, the welcome gives way to an error notice and nothing after the throw
   * happens. The join spinner is off afterwards.
   */
  function JoinCommunity(
    st: HubState, tier: string, userId: string, hasCallback: bool, link: CommunityLink,
    callbackThrows: bool, openThrows: bool): (r: JoinStep)
    ensures IsPendingUser(tier) ==> r == JoinStep(st.(toast := Some(PendingNotice)), [])
    ensures !IsPendingUser(tier) ==>
      && r.state.confetti == st.confetti + 1
      && r.state.joinLoadingFor.None?
      && r.state.(confetti := st.confetti, joinLoadingFor := st.joinLoadingFor, toast := st.toast) == st
      && (userId != "" <==> RecordPlatform(userId, link.platformKey) in r.effects)
      && (hasCallback <==> NotifyParent(link.platformKey) in r.effects)
      && (OpenLink(link.linkUrl) in r.effects <==> !(hasCallback && callbackThrows))
      && (r.state.toast == Some(Welcome(link.platformName)) <==> !(hasCallback && callbackThrows) && !openThrows)
      && (r.state.toast == Some(OpenFailed) <==> (hasCallback && callbackThrows) || openThrows)
    // The recording comes first, then the callback, and the link opens last.
    ensures !IsPendingUser(tier) ==>
      r.effects == (if userId != "" then [RecordPlatform(userId, link.platformKey)] else [])
                   + (if hasCallback then [NotifyParent(link.platformKey)] else [])
                   + (if hasCallback && callbackThrows then [] else [OpenLink(link.linkUrl)])
  {
    if IsPendingUser(tier) then JoinStep(st.(toast := Some(PendingNotice)), [])
    else
      var record := if userId != "" then [RecordPlatform(userId, link.platformKey)] else [];
      var notify := if hasCallback then [NotifyParent(link.platformKey)] else [];
      var started := st.(confetti := st.confetti + 1, joinLoadingFor := None);
      if hasCallback && callbackThrows then
        JoinStep(started.(toast := Some(OpenFailed)), record + notify)
      else if openThrows then
        JoinStep(started.(toast := Some(OpenFailed)), record + notify + [OpenLink(link.linkUrl)])
      else
        JoinStep(started.(toast := Some(Welcome(link.platformName))), record + notify + [OpenLink(link.linkUrl)])
  }

  /**
   * A pending user's join only shows the pending notice: trying again changes
   * nothing further and asks nothing of the outside world.
   */
  lemma PendingJoinIdempotent(st: HubState, tier: string, userId: string, hasCallback: bool,
                              link: CommunityLink, callbackThrows: bool, openThrows: bool)
    requires IsPendingUser(tier)
    ensures var once := JoinCommunity(st, tier, userId, hasCallback, link, callbackThrows, openThrows);
      && JoinCommunity(once.state, tier, userId, hasCallback, link, callbackThrows, openThrows) == once
      && once.effects == []
      && once.state.links == st.links && once.state.confetti == st.confetti
  {
  }

  /**
   * A join that opens the link opens it as the very last effect, after the platform
   * is recorded and the callback notified.
   */
  lemma JoinOpensLast(st: HubState, tier: string, userId: string, hasCallback: bool,
                      link: CommunityLink, callbackThrows: bool, openThrows: bool)
    requires !IsPendingUser(tier) && !(hasCallback && callbackThrows)
    ensures var e := JoinCommunity(st, tier, userId, hasCallback, link, callbackThrows, openThrows).effects;
      && |e| > 0 && e[|e| - 1] == OpenLink(link.linkUrl)
      && (forall i :: 0 <= i < |e| - 1 ==> !e[i].OpenLink?)
  {
  }
}

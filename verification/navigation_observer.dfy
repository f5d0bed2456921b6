/** extensions::NavigationObserver: when a tab commits a navigation to a URL
    owned by a disabled extension whose permissions escalated, it asks the
    user (once per extension) whether to re-enable it, and acts on the
    answer. */
module NavigationObserver {
  import opened Wrappers

  type ExtensionId = string
  type Url = string

  /** A profile and its off-the-record counterpart share `original`. */
  datatype Profile = Profile(original: nat, offTheRecord: bool)

  predicate IsSameProfile(a: Profile, b: Profile)
  {
    a.original == b.original
  }

  datatype NotificationType = NavEntryCommitted | OtherNotification

  /** The navigation controller of a tab, with its visible entry's URL. */
  datatype NavigationController = NavigationController(id: nat, profile: Profile, visibleUrl: Option<Url>)

  /** What the extension service answers: the disabled extension or app
      owning a URL, which extensions escalated permissions, and which
      extensions are installed (enabled or not). */
  datatype ExtensionRegistry = ExtensionRegistry(
    disabledByUrl: map<Url, ExtensionId>,
    escalatedPermissions: set<ExtensionId>,
    installed: set<ExtensionId>)
  {
    /** Extension ids are never empty. */
    predicate Valid()
    {
      forall u :: u in disabledByUrl ==> disabledByUrl[u] != [] && disabledByUrl[u] in installed
    }
  }

  /** The outside effects the observer causes, in order. */
  datatype Effect =
    | ConfirmReEnable(controller: nat, extension: ExtensionId)
    | GrantPermissionsAndEnable(extension: ExtensionId)
    | Reload(controller: nat)
    | RecordPermissionMessages(recorded: Option<ExtensionId>, histogram: string)

  const ReEnableCancelHistogram: string := "Extensions.Permissions_ReEnableCancel"
  const ReEnableAbortHistogram: string := "Extensions.Permissions_ReEnableAbort"

  class Observer {
    const profile: Profile
    /** "" when no prompt is running. */
    var inProgressExtensionId: ExtensionId
    var inProgressController: Option<nat>
    var promptShowing: bool
    var promptedExtensions: set<ExtensionId>
    var effects: seq<Effect>

    /** A prompt is either fully running (id, controller and dialog) or not
        at all; a running prompt's extension was recorded as prompted; and
        no extension was ever asked about twice. */
    predicate Valid()
      reads this
    {
      && (inProgressExtensionId != [] <==> inProgressController.Some?)
      && (inProgressExtensionId != [] <==> promptShowing)
      && (inProgressExtensionId != [] ==> inProgressExtensionId in promptedExtensions)
      && (forall i :: 0 <= i < |effects| && effects[i].ConfirmReEnable? ==>
            effects[i].extension in promptedExtensions)
      && (forall i, j :: 0 <= i < j < |effects| && effects[i].ConfirmReEnable? && effects[j].ConfirmReEnable? ==>
            effects[i].extension != effects[j].extension)
    }

    constructor (profile: Profile)
      ensures this.profile == profile
      ensures inProgressExtensionId == [] && inProgressController == None && !promptShowing
      ensures promptedExtensions == {} && effects == []
      ensures Valid()
    {
      this.profile := profile;
      inProgressExtensionId := [];
      inProgressController := None;
      promptShowing := false;
      promptedExtensions := {};
      effects := [];
    }

    /** The extension a committed navigation may prompt about, if any. */
    function Candidate(controller: NavigationController, registry: ExtensionRegistry): Option<ExtensionId>
    {
      if controller.visibleUrl.Some? && controller.visibleUrl.value in registry.disabledByUrl
      then Some(registry.disabledByUrl[controller.visibleUrl.value])
      else None
    }

    /** No prompt runs and the navigation has a candidate not yet
        considered. */
    predicate WillConsider(controller: NavigationController, registry: ExtensionRegistry)
      reads this
    {
      && inProgressExtensionId == []
      && Candidate(controller, registry).Some?
      && Candidate(controller, registry).value !in promptedExtensions
    }

    /** PromptToEnableExtensionIfNecessary. */
    method PromptToEnableExtensionIfNecessary(controller: NavigationController, registry: ExtensionRegistry)
      requires Valid() && registry.Valid()
      modifies this
      ensures Valid()
      // Nothing happens while a prompt runs, without a candidate, or for an
      // extension already considered.
      ensures !old(WillConsider(controller, registry)) ==> unchanged(this)
      // Otherwise the candidate is recorded, and a prompt starts exactly
      // when its permissions escalated.
      ensures old(WillConsider(controller, registry)) ==>
        var id := Candidate(controller, registry).value;
        && promptedExtensions == old(promptedExtensions) + {id}
        && (id in registry.escalatedPermissions ==>
              && inProgressExtensionId == id && inProgressController == Some(controller.id) && promptShowing
              && effects == old(effects) + [ConfirmReEnable(controller.id, id)])
        && (id !in registry.escalatedPermissions ==>
              && inProgressExtensionId == [] && inProgressController == None && !promptShowing
              && effects == old(effects))
    {
      if inProgressExtensionId != [] {
        return;
      }
      var extension := Candidate(controller, registry);
      if extension.None? {
        return;
      }
      var id := extension.value;
      if id in promptedExtensions {
        return;
      }
      promptedExtensions := promptedExtensions + {id};
      if id in registry.escalatedPermissions {
        inProgressExtensionId := id;
        inProgressController := Some(controller.id);
        promptShowing := true;
        effects := effects + [ConfirmReEnable(controller.id, id)];
      }
    }

    /** Observe: committed navigations of this profile (or its
        off-the-record twin) may prompt; everything else is ignored. */
    method Observe(kind: NotificationType, controller: NavigationController, registry: ExtensionRegistry)
      requires Valid() && registry.Valid()
      modifies this
      ensures Valid()
      ensures kind != NavEntryCommitted || !IsSameProfile(profile, controller.profile) ==> unchanged(this)
      ensures kind == NavEntryCommitted && IsSameProfile(profile, controller.profile) ==>
        && (!old(WillConsider(controller, registry)) ==> unchanged(this))
        && (old(WillConsider(controller, registry)) ==>
              var id := Candidate(controller, registry).value;
              && promptedExtensions == old(promptedExtensions) + {id}
              && (id in registry.escalatedPermissions ==>
                    && inProgressExtensionId == id && inProgressController == Some(controller.id) && promptShowing
                    && effects == old(effects) + [ConfirmReEnable(controller.id, id)])
              && (id !in registry.escalatedPermissions ==>
                    && inProgressExtensionId == [] && inProgressController == None && !promptShowing
                    && effects == old(effects)))
      ensures promptedExtensions >= old(promptedExtensions)
      ensures |effects| >= |old(effects)| && effects[..|old(effects)|] == old(effects)
    {
      if kind != NavEntryCommitted {
        return;
      }
      if !IsSameProfile(profile, controller.profile) {
        return;
      }
      PromptToEnableExtensionIfNecessary(controller, registry);
    }

    /** The user accepted: clear the prompt, then grant the permissions,
        re-enable the extension and reload the tab. */
    method InstallUIProceed(registry: ExtensionRegistry)
      requires Valid()
      requires inProgressExtensionId != [] && inProgressExtensionId in registry.installed
      modifies this
      ensures Valid()
      ensures inProgressExtensionId == [] && inProgressController == None && !promptShowing
      ensures promptedExtensions == old(promptedExtensions)
      ensures effects == old(effects) + [GrantPermissionsAndEnable(old(inProgressExtensionId)),
                                         Reload(old(inProgressController).value)]
    {
      var id := inProgressExtensionId;
      var controller := inProgressController.value;
      inProgressExtensionId := [];
      inProgressController := None;
      promptShowing := false;
      effects := effects + [GrantPermissionsAndEnable(id), Reload(controller)];
    }

    /** The prompt was cancelled by the user or aborted: clear it and only
        record which way it ended. */
    method InstallUIAbort(userInitiated: bool, registry: ExtensionRegistry)
      requires Valid()
      modifies this
      ensures Valid()
      ensures inProgressExtensionId == [] && inProgressController == None && !promptShowing
      ensures promptedExtensions == old(promptedExtensions)
      ensures effects == old(effects) + [RecordPermissionMessages(
        if old(inProgressExtensionId) in registry.installed then Some(old(inProgressExtensionId)) else None,
        if userInitiated then ReEnableCancelHistogram else ReEnableAbortHistogram)]
    {
      var extension := if inProgressExtensionId in registry.installed then Some(inProgressExtensionId) else None;
      inProgressExtensionId := [];
      inProgressController := None;
      promptShowing := false;
      var histogram := if userInitiated then ReEnableCancelHistogram else ReEnableAbortHistogram;
      effects := effects + [RecordPermissionMessages(extension, histogram)];
    }
  }
}

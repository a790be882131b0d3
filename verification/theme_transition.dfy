/**
 * The animated switch between the dark and light themes
 * (public/scripts/themeTransition.js). Two flags guard re-entry: one
 * transition at a time, one winter-warning popup at a time. Each async
 * method is cut at its awaits and timers: the part that runs at once,
 * then the callback a timer or a button click runs later.
 */
module ThemeTransition {
  import opened Wrappers

  /**
   * The decoration elements: the loading screen is active, the backdrop's
   * classes, sun and moon displayed, the rays' opacity (`None` when the
   * page has no rays element, `Some(lit)` otherwise) and the popup shown.
   */
  datatype Scene = Scene(
    loading: bool,
    backdrop: set<string>,
    sun: bool,
    moon: bool,
    rays: Option<bool>,
    popup: bool)

  /** The two buttons of the winter-warning popup. */
  datatype PopupButton = Preview | Close

  /** `if (this.rays) this.rays.style.opacity = lit ? '1' : '0'`. */
  function SetRays(rays: Option<bool>, lit: bool): (r: Option<bool>)
    ensures r.Some? <==> rays.Some?
    ensures r.Some? ==> r.value == lit
  {
    if rays.Some? then Some(lit) else None
  }

  class ThemeTransitionManager {
    var isTransitioning: bool
    var isShowingPopup: bool
    /** `data-theme` on the document element. */
    var theme: string
    /** `localStorage` item `theme`. */
    var storedTheme: string
    var scene: Scene
    /** Winter-warning promises still waiting for a button click. */
    var waiting: nat

    /**
     * While a popup is being shown it is visible and some promise waits on
     * its buttons; the document and local storage agree on the theme.
     */
    ghost predicate Valid()
      reads this
    {
      (isShowingPopup ==> waiting > 0 && scene.popup) && storedTheme == theme
    }

    /** `new ThemeTransitionManager()`: both flags clear and the page forced to the dark theme. */
    constructor(page: Scene)
      ensures Valid()
      ensures !isTransitioning && !isShowingPopup
      ensures theme == "dark" && storedTheme == "dark"
      ensures scene == page && waiting == 0
    {
      isTransitioning, isShowingPopup := false, false;
      theme, storedTheme := "dark", "dark";
      scene := page;
      waiting := 0;
    }

    /** `reset()`: hide the transition decorations and clear both flags. */
    method Reset()
      requires Valid()
      modifies this
      ensures Valid()
      ensures !isTransitioning && !isShowingPopup
      ensures scene == old(scene).(loading := false, backdrop := old(scene).backdrop - {"sunrise", "sunset"},
                                   sun := false, moon := false, rays := SetRays(old(scene).rays, false))
      ensures theme == old(theme) && storedTheme == old(storedTheme) && waiting == old(waiting)
    {
      scene := scene.(loading := false, backdrop := scene.backdrop - {"sunrise", "sunset"},
                      sun := false, moon := false, rays := SetRays(scene.rays, false));
      isTransitioning := false;
      isShowingPopup := false;
    }

    /**
     * `showWinterWarning()` up to its promise: `Some(false)` at once when a
     * popup is already showing (nothing changes); otherwise the popup opens
     * and the answer is left to a button click (`None`).
     */
    method ShowWinterWarning() returns (immediate: Option<bool>)
      requires Valid()
      modifies this
      ensures Valid()
      ensures old(isShowingPopup) ==>
                immediate == Some(false) && isShowingPopup && scene == old(scene) && waiting == old(waiting)
      ensures !old(isShowingPopup) ==>
                immediate == None && isShowingPopup && scene == old(scene).(popup := true) && waiting == old(waiting) + 1
      ensures isTransitioning == old(isTransitioning) && theme == old(theme) && storedTheme == old(storedTheme)
    {
      if isShowingPopup {
        return Some(false);
      }
      isShowingPopup := true;
      waiting := waiting + 1;
      scene := scene.(popup := true);
      immediate := None;
    }

    /**
     * A click on a popup button. Every waiting promise's listener fires:
     * each cleans up (hides the popup, clears `isShowingPopup`) and resolves
     * with `true` for preview, `false` for close. With nobody waiting the
     * click does nothing and answers `None`.
     */
    method Click(button: PopupButton) returns (answer: Option<bool>)
      requires Valid()
      modifies this
      ensures Valid()
      ensures old(waiting) == 0 ==>
                answer == None && isShowingPopup == old(isShowingPopup) && scene == old(scene)
      ensures old(waiting) > 0 ==>
                answer == Some(button == Preview) && !isShowingPopup && scene == old(scene).(popup := false)
      ensures waiting == 0
      ensures isTransitioning == old(isTransitioning) && theme == old(theme) && storedTheme == old(storedTheme)
    {
      if waiting == 0 {
        return None;
      }
      scene := scene.(popup := false);
      isShowingPopup := false;
      waiting := 0;
      answer := Some(button == Preview);
    }

    /** `await showWinterWarning()` when the user then clicks `button`. */
    method AskWinterWarning(button: PopupButton) returns (answer: bool)
      requires Valid()
      modifies this
      ensures Valid()
      ensures old(isShowingPopup) ==>
                !answer && isShowingPopup && scene == old(scene) && waiting == old(waiting)
      ensures !old(isShowingPopup) ==>
                answer == (button == Preview) && !isShowingPopup && scene == old(scene).(popup := false) && waiting == 0
      ensures isTransitioning == old(isTransitioning) && theme == old(theme) && storedTheme == old(storedTheme)
    {
      var immediate := ShowWinterWarning();
      if immediate.Some? {
        return immediate.value;
      }
      var clicked := Click(button);
      answer := clicked.value;
    }

    /**
     * The part of `transitionToDark()` before its three-second wait,
     * including the animation-frame callback that switches the theme.
     * Refused (answers false, changes nothing) while a transition runs.
     */
    method BeginDark() returns (started: bool)
      requires Valid()
      modifies this
      ensures Valid()
      ensures started <==> !old(isTransitioning)
      ensures !started ==>
                isTransitioning && isShowingPopup == old(isShowingPopup) && theme == old(theme) && scene == old(scene)
      ensures started ==>
                isTransitioning && isShowingPopup == old(isShowingPopup) && theme == "dark" &&
                scene == old(scene).(loading := true, backdrop := old(scene).backdrop - {"sunrise"} + {"sunset"},
                                     moon := true, sun := false, rays := SetRays(old(scene).rays, false))
      ensures started ==> "sunset" in scene.backdrop && "sunrise" !in scene.backdrop
      ensures waiting == old(waiting)
    {
      if isTransitioning {
        return false;
      }
      isTransitioning := true;
      scene := scene.(loading := true, backdrop := scene.backdrop - {"sunrise"} + {"sunset"});
      scene := scene.(moon := true, sun := false, rays := SetRays(scene.rays, false));
      theme := "dark";
      storedTheme := "dark";
      started := true;
    }

    /** `transitionToDark()` run to completion: begin, wait, reset. */
    method TransitionToDark()
      requires Valid()
      modifies this
      ensures Valid()
      ensures old(isTransitioning) ==>
                isTransitioning && isShowingPopup == old(isShowingPopup) && theme == old(theme) && scene == old(scene)
      ensures !old(isTransitioning) ==>
                !isTransitioning && !isShowingPopup && theme == "dark" && storedTheme == "dark" &&
                scene.backdrop == old(scene).backdrop - {"sunrise", "sunset"} && !scene.loading && !scene.sun && !scene.moon
      ensures !old(isTransitioning) ==>
                scene == old(scene).(loading := false, backdrop := old(scene).backdrop - {"sunrise", "sunset"},
                                     sun := false, moon := false, rays := SetRays(old(scene).rays, false))
      ensures waiting == old(waiting)
    {
      var started := BeginDark();
      if started {
        Reset();
      }
    }

    /**
     * The part of `transitionToLight()` before its three-second wait,
     * including the animation-frame callback that switches the theme.
     * Refused (answers false, changes nothing) while a transition runs.
     */
    method BeginLight() returns (started: bool)
      requires Valid()
      modifies this
      ensures Valid()
      ensures started <==> !old(isTransitioning)
      ensures !started ==>
                isTransitioning && isShowingPopup == old(isShowingPopup) && theme == old(theme) && scene == old(scene)
      ensures started ==>
                isTransitioning && isShowingPopup == old(isShowingPopup) && theme == "light" &&
                scene == old(scene).(loading := true, backdrop := old(scene).backdrop - {"sunset"} + {"sunrise"},
                                     sun := true, moon := false)
      ensures started ==> "sunrise" in scene.backdrop && "sunset" !in scene.backdrop
      ensures waiting == old(waiting)
    {
      if isTransitioning {
        return false;
      }
      isTransitioning := true;
      scene := scene.(loading := true, backdrop := scene.backdrop - {"sunset"} + {"sunrise"});
      scene := scene.(sun := true, moon := false);
      theme := "light";
      storedTheme := "light";
      started := true;
    }

    /** The half-second timer of `transitionToLight()`: light the rays, if any. */
    method RaiseRays()
      requires Valid()
      modifies this
      ensures Valid()
      ensures scene == old(scene).(rays := SetRays(old(scene).rays, true))
      ensures isTransitioning == old(isTransitioning) && isShowingPopup == old(isShowingPopup)
      ensures theme == old(theme) && storedTheme == old(storedTheme) && waiting == old(waiting)
    {
      scene := scene.(rays := SetRays(scene.rays, true));
    }

    /** `transitionToLight()` run to completion: begin, light the rays, wait, reset. */
    method TransitionToLight()
      requires Valid()
      modifies this
      ensures Valid()
      ensures old(isTransitioning) ==>
                isTransitioning && isShowingPopup == old(isShowingPopup) && theme == old(theme) && scene == old(scene)
      ensures !old(isTransitioning) ==>
                !isTransitioning && !isShowingPopup && theme == "light" && storedTheme == "light" &&
                scene.backdrop == old(scene).backdrop - {"sunrise", "sunset"} && !scene.loading && !scene.sun && !scene.moon
      ensures !old(isTransitioning) ==>
                scene == old(scene).(loading := false, backdrop := old(scene).backdrop - {"sunrise", "sunset"},
                                     sun := false, moon := false, rays := SetRays(old(scene).rays, false))
      ensures waiting == old(waiting)
    {
      var started := BeginLight();
      if started {
        RaiseRays();
        Reset();
      }
    }
  }
}

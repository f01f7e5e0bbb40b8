/** The theme button: a click flips between dark and light after a short
    animation, and further clicks are ignored until the animation ends. */
module ThemeToggle {

  /** `theme === "dark" ? "light" : "dark"`: any theme that is not dark,
      including a system or unset one, is followed by dark. */
  function NextTheme(theme: string): (next: string)
    ensures next == "light" <==> theme == "dark"
    ensures next == "dark" <==> theme != "dark"
  {
    if theme == "dark" then "light" else "dark"
  }

  /** Two clicks from dark or light come back to the same theme. */
  lemma NextThemeTwice(theme: string)
    requires theme == "dark" || theme == "light"
    ensures NextTheme(NextTheme(theme)) == theme
  {
  }

  /** Which icons are drawn at full size. */
  datatype Icons = Icons(sun: bool, moon: bool)

  /** Before mounting only the sun is drawn; afterwards the sun stands for
      dark, the moon for light, and neither for any other theme. */
  function IconsFor(mounted: bool, theme: string): (icons: Icons)
    ensures !mounted ==> icons.sun && !icons.moon
    ensures mounted ==> (icons.sun <==> theme == "dark")
    ensures mounted ==> (icons.moon <==> theme == "light")
    ensures !(icons.sun && icons.moon)
  {
    if !mounted then Icons(true, false)
    else Icons(theme == "dark", theme == "light")
  }

  /** The timers a click leaves behind. */
  datatype Stage =
    | Idle
    /** The first 300 ms timer: it applies the theme computed at the click. */
    | ApplyPending(newTheme: string)
    /** The nested 300 ms timer: it ends the animation. */
    | UnlockPending

  class ThemeButton {
    /** The theme held by the provider. */
    var theme: string
    var mounted: bool
    var isAnimating: bool
    var stage: Stage

    /** A click is being animated exactly while one of its timers is pending. */
    ghost predicate Valid()
      reads this
    {
      isAnimating <==> !stage.Idle?
    }

    constructor (theme: string)
      ensures Valid()
      ensures this.theme == theme && !mounted && !isAnimating && stage == Idle
    {
      this.theme := theme;
      mounted := false;
      isAnimating := false;
      stage := Idle;
    }

    /** The mount effect. */
    method Mount()
      modifies this
      ensures mounted
      ensures theme == old(theme) && isAnimating == old(isAnimating) && stage == old(stage)
    {
      mounted := true;
    }

    /** A click: the unmounted placeholder has no handler, and a click during
        the animation is ignored; otherwise the animation starts and the
        opposite of the current theme is scheduled. */
    method Click()
      requires Valid()
      modifies this
      ensures Valid()
      ensures !old(mounted) || old(isAnimating) ==> unchanged(this)
      ensures old(mounted) && !old(isAnimating) ==>
                isAnimating && stage == ApplyPending(NextTheme(old(theme)))
                && theme == old(theme) && mounted
    {
      if !mounted || isAnimating {
        return;
      }
      isAnimating := true;
      var newTheme := NextTheme(theme);
      stage := ApplyPending(newTheme);
    }

    /** The first timer: apply the theme and start the second timer. */
    method ApplyTimerFire()
      requires Valid()
      modifies this
      ensures Valid()
      ensures old(stage).ApplyPending? ==>
                theme == old(stage).newTheme && stage == UnlockPending && isAnimating
      ensures !old(stage).ApplyPending? ==> unchanged(this)
      ensures mounted == old(mounted)
    {
      if stage.ApplyPending? {
        theme := stage.newTheme;
        stage := UnlockPending;
      }
    }

    /** The second timer: the animation ends and clicks are accepted again. */
    method UnlockTimerFire()
      requires Valid()
      modifies this
      ensures Valid()
      ensures old(stage) == UnlockPending ==> !isAnimating && stage == Idle
      ensures old(stage) != UnlockPending ==> unchanged(this)
      ensures theme == old(theme) && mounted == old(mounted)
    {
      if stage == UnlockPending {
        isAnimating := false;
        stage := Idle;
      }
    }
  }

  /** A full click from light: dark is applied by the first timer, and the
      button accepts clicks again after the second. */
  method ClickScenario()
  {
    var button := new ThemeButton("light");
    button.Click();
    assert button.theme == "light" && !button.isAnimating;
    button.Mount();
    button.Click();
    assert button.isAnimating && button.theme == "light";
    button.Click();
    assert button.stage == ApplyPending("dark");
    button.ApplyTimerFire();
    assert button.theme == "dark" && button.isAnimating;
    button.UnlockTimerFire();
    assert button.theme == "dark" && !button.isAnimating && button.stage == Idle;
    assert IconsFor(button.mounted, button.theme) == Icons(true, false);
  }
}

/**
 * The theme colours the cards read through `getTheme()` (src/theme/themeContext.ts); the
 * theme itself is a parameter of the model.
 */
module Theme {

  /** `theme.card`'s button background colours. */
  datatype CardColors = CardColors(
    activeButtonBackground: string,
    activeLightButtonBackground: string,
    inactiveButtonBackground: string)
}

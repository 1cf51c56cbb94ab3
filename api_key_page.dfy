/** The credential page (src/pages/ApiKey.tsx): prefill of a stored key,
    the dark-mode switch, and the checked write of the key. */
module ApiKeyPage {
  import opened Ui
  import opened Text
  import opened SessionStore
  import opened GeminiApi

  const EmptyKeyMessage := "Please enter your Gemini API key"
  const SavedMessage := "API key saved successfully"

  /** The page's React state. */
  class ApiKey {
    const store: Store
    var apiKey: string
    var hasExistingKey: bool
    var isDarkMode: bool

    ghost predicate Valid()
      reads this, store
    {
      store.Valid()
    }

    /** The state of the first render. */
    constructor (store: Store)
      requires store.Valid()
      ensures Valid() && this.store == store
      ensures apiKey == "" && !hasExistingKey && !isDarkMode
    {
      this.store := store;
      apiKey := "";
      hasExistingKey := false;
      isDarkMode := false;
    }

    /** The mount effect: a stored non-empty key is prefilled and flagged
        as existing, and the mode follows the stored theme flag. */
    method Enter()
      requires Valid()
      modifies this
      ensures Valid()
      ensures KeyPresent(store.GetApiKey()) ==> hasExistingKey && apiKey == store.GetApiKey().value
      ensures !KeyPresent(store.GetApiKey()) ==>
                hasExistingKey == old(hasExistingKey) && apiKey == old(apiKey)
      ensures isDarkMode == store.GetThemePreference()
    {
      var existing := store.GetApiKey();
      if existing.Some? && existing.value != "" {
        hasExistingKey := true;
        apiKey := existing.value;
      }
      isDarkMode := store.GetThemePreference();
    }

    /** The input's change event. */
    method SetApiKey(value: string)
      requires Valid()
      modifies this
      ensures Valid()
      ensures apiKey == value && hasExistingKey == old(hasExistingKey) && isDarkMode == old(isDarkMode)
    {
      apiKey := value;
    }

    /** Flips the mode and persists it, so that the stored preference reads
        back as the new mode; nothing else in the store changes. */
    method ToggleDarkMode()
      requires Valid()
      modifies this, store
      ensures Valid()
      ensures isDarkMode == !old(isDarkMode)
      ensures store.GetThemePreference() == isDarkMode
      ensures store.items == old(store.items)[DarkModeKey := Plain(BoolText(isDarkMode))]
      ensures apiKey == old(apiKey) && hasExistingKey == old(hasExistingKey)
    {
      isDarkMode := !isDarkMode;
      store.SaveThemePreference(isDarkMode);
    }

    /** A blank key is refused with the store untouched. Otherwise the key
        is saved exactly as typed, untrimmed, which lets every generator
        past its missing-key guard, and the setup page follows. */
    method HandleSubmit() returns (out: Outcome)
      requires Valid()
      modifies store
      ensures Valid()
      ensures IsBlank(apiKey) ==>
                out == Show(ErrorToast(EmptyKeyMessage)) && store.items == old(store.items)
      ensures !IsBlank(apiKey) ==>
                out == Go(SuccessToast(SavedMessage), SetupRoute)
                && store.items == old(store.items)[ApiKeyKey := Plain(apiKey)]
                && store.GetApiKey() == Some(apiKey)
                && KeyPresent(store.GetApiKey())
    {
      if IsBlank(apiKey) {
        return Show(ErrorToast(EmptyKeyMessage));
      }
      store.SaveApiKey(apiKey);
      out := Go(SuccessToast(SavedMessage), SetupRoute);
    }
  }
}

/**
 * The configuration store: the recommended models, the settings file under
 * `~/.config/terminalai`, the environment variables that take precedence over
 * it, and the two interactive prompts that write it. The file is a field of
 * `ConfigStore`; what the user types is passed in as the answer lines.
 */
module Config {
  import opened Wrappers
  import opened Environment
  import opened Text

  datatype ModelInfo = ModelInfo(id: string, name: string)

  /** The recommended free models, in menu order. */
  const FreeModels: seq<ModelInfo> := [
    ModelInfo("mistralai/devstral-2512:free", "Devstral (coding-focused)"),
    ModelInfo("deepseek/deepseek-r1-0528:free", "DeepSeek R1 (reasoning)"),
    ModelInfo("meta-llama/llama-3.3-70b-instruct:free", "Llama 3.3 70B (general)")
  ]

  /** The first recommended model. */
  const DefaultModel: string := FreeModels[0].id

  const ApiKeyVariable: string := "OPENROUTER_API_KEY"
  const ModelVariable: string := "TERMINALAI_MODEL"

  /** The settings object: either field may be missing. */
  datatype Settings = Settings(apiKey: Option<string>, model: Option<string>)

  const NoSettings: Settings := Settings(None, None)

  /** What is found at the settings path: nothing, text that is not JSON, or a settings object. */
  datatype ConfigFile = Absent | Unparseable | Parsed(settings: Settings)

  /** `loadConfig`: a missing or malformed file reads as empty settings. */
  function LoadConfig(file: ConfigFile): (c: Settings)
    ensures file.Parsed? ==> c == file.settings
    ensures !file.Parsed? ==> c.apiKey.None? && c.model.None?
  {
    if file.Parsed? then file.settings else NoSettings
  }

  /** `getApiKey`: a non-empty environment variable wins over the file. */
  function GetApiKey(env: Env, file: ConfigFile): (key: Option<string>)
    ensures IsSet(env, ApiKeyVariable) ==> key == Some(env[ApiKeyVariable])
    ensures !IsSet(env, ApiKeyVariable) ==> key == LoadConfig(file).apiKey
  {
    if IsSet(env, ApiKeyVariable) then Some(env[ApiKeyVariable]) else LoadConfig(file).apiKey
  }

  /** `getModel`: a non-empty environment variable wins over the file. */
  function GetModel(env: Env, file: ConfigFile): (model: Option<string>)
    ensures IsSet(env, ModelVariable) ==> model == Some(env[ModelVariable])
    ensures !IsSet(env, ModelVariable) ==> model == LoadConfig(file).model
  {
    if IsSet(env, ModelVariable) then Some(env[ModelVariable]) else LoadConfig(file).model
  }

  /** The file `saveApiKey(key)` leaves behind. */
  function WithApiKey(file: ConfigFile, key: string): (f: ConfigFile)
    ensures f.Parsed?
  {
    Parsed(LoadConfig(file).(apiKey := Some(key)))
  }

  /** The file `saveModel(model)` leaves behind. */
  function WithModel(file: ConfigFile, model: string): (f: ConfigFile)
    ensures f.Parsed?
  {
    Parsed(LoadConfig(file).(model := Some(model)))
  }

  /** One of the recommended models. */
  predicate IsListedModel(m: string) {
    m == FreeModels[0].id || m == FreeModels[1].id || m == FreeModels[2].id
  }

  /**
   * The model the menu picks for the parsed choice: one of the three listed
   * models, a non-empty custom identifier for choice 4, otherwise the default.
   */
  function ModelForChoice(choice: Option<int>, custom: string): (m: string)
    ensures m != ""
    ensures choice.Some? && 1 <= choice.value <= 3 ==> m == FreeModels[choice.value - 1].id
    ensures choice == Some(4) ==> m == (if custom == "" then DefaultModel else custom)
    ensures (choice.None? || choice.value < 1 || choice.value > 4) ==> m == DefaultModel
    ensures IsListedModel(m) || m == custom
  {
    if choice.Some? && 1 <= choice.value <= 3 then FreeModels[choice.value - 1].id
    else if choice == Some(4) then (if custom == "" then DefaultModel else custom)
    else DefaultModel
  }

  /** `promptForModel` on the two answers typed (the second is read only for choice 4). */
  function ChosenModel(choiceAnswer: string, customAnswer: string): (m: string)
    ensures m != ""
    ensures IsListedModel(m) || m == Trim(customAnswer)
  {
    ModelForChoice(ParseInt(Trim(choiceAnswer)), Trim(customAnswer))
  }

  /** The environment decides the key whenever it holds one: the file is not consulted. */
  lemma EnvironmentKeyWins(env: Env, f: ConfigFile, g: ConfigFile)
    requires IsSet(env, ApiKeyVariable)
    ensures GetApiKey(env, f) == GetApiKey(env, g) == Some(env[ApiKeyVariable])
  {
  }

  /** Without the variable, a saved key is the one read back. */
  lemma SavedKeyIsRead(env: Env, file: ConfigFile, key: string)
    requires !IsSet(env, ApiKeyVariable)
    ensures GetApiKey(env, WithApiKey(file, key)) == Some(key)
  {
  }

  /** The environment decides the model whenever it names one. */
  lemma EnvironmentModelWins(env: Env, f: ConfigFile, g: ConfigFile)
    requires IsSet(env, ModelVariable)
    ensures GetModel(env, f) == GetModel(env, g) == Some(env[ModelVariable])
  {
  }

  /** Without the variable, a saved model is the one read back. */
  lemma SavedModelIsRead(env: Env, file: ConfigFile, model: string)
    requires !IsSet(env, ModelVariable)
    ensures GetModel(env, WithModel(file, model)) == Some(model)
  {
  }

  /** A malformed or missing file reads as no key and no model. */
  lemma UnreadableFileHasNoSettings(env: Env, file: ConfigFile)
    requires !file.Parsed?
    requires !IsSet(env, ApiKeyVariable) && !IsSet(env, ModelVariable)
    ensures GetApiKey(env, file).None? && GetModel(env, file).None?
  {
  }

  /** Saving a key keeps a readable model, and saving a model keeps a readable key. */
  lemma SavesKeepTheOtherField(env: Env, file: ConfigFile, key: string, model: string)
    ensures GetModel(env, WithApiKey(file, key)) == GetModel(env, file)
    ensures GetApiKey(env, WithModel(file, model)) == GetApiKey(env, file)
  {
  }

  /** Saving the same key twice is saving it once. */
  lemma SaveKeyIdempotent(file: ConfigFile, key: string)
    ensures WithApiKey(WithApiKey(file, key), key) == WithApiKey(file, key)
  {
  }

  /** A malformed file is replaced: after a save, only the saved field is set. */
  lemma SaveOverMalformedFile(key: string)
    ensures LoadConfig(WithApiKey(Unparseable, key)) == Settings(Some(key), None)
  {
  }

  /** The rendering of a menu number needs no trimming. */
  lemma MenuNumberIsTrimmed(i: nat)
    ensures Trim(NatToString(i)) == NatToString(i)
  {
    var s := NatToString(i);
    assert IsDigit(s[0]) && IsDigit(s[|s| - 1]);
    TrimKeepsTrimmed(s);
  }

  /** A number typed at the menu is read back as that number. */
  lemma MenuNumberIsRead(i: nat, customAnswer: string)
    ensures ChosenModel(NatToString(i), customAnswer) == ModelForChoice(Some(i), Trim(customAnswer))
  {
    MenuNumberIsTrimmed(i);
    ParseIntOfNatToString(i);
  }

  /** Typing the number of a listed model selects it. */
  lemma ChoosingListedModel(i: nat, customAnswer: string)
    requires 1 <= i <= 3
    ensures ChosenModel(NatToString(i), customAnswer) == FreeModels[i - 1].id
  {
    MenuNumberIsRead(i, customAnswer);
  }

  /** Typing 4 takes the custom identifier, trimmed, or the default when that is blank. */
  lemma ChoosingCustomModel(customAnswer: string)
    ensures ChosenModel(NatToString(4), customAnswer)
         == (if Trim(customAnswer) == "" then DefaultModel else Trim(customAnswer))
  {
    MenuNumberIsRead(4, customAnswer);
  }

  /** An answer that is not a number falls back to the default. */
  lemma NonNumericChoiceIsDefault(choiceAnswer: string, customAnswer: string)
    requires ParseInt(Trim(choiceAnswer)).None?
    ensures ChosenModel(choiceAnswer, customAnswer) == DefaultModel
  {
  }

  /** A negative number is not on the menu: `parseInt` reads it with its sign, so the default is taken. */
  lemma NegativeChoiceIsDefault(i: nat, customAnswer: string)
    requires i >= 1
    ensures ChosenModel("-" + NatToString(i), customAnswer) == DefaultModel
  {
    var d := NatToString(i);
    var s := "-" + d;
    assert IsDigit(d[|d| - 1]) && s[|s| - 1] == d[|d| - 1];
    assert !IsSpace(s[0]);
    TrimKeepsTrimmed(s);
    ParseIntOfNegated(i);
  }

  /** The settings file, with the directory that holds it. */
  class ConfigStore {
    var dirExists: bool
    var file: ConfigFile

    /** The file can only be there once its directory is. */
    predicate Valid()
      reads this
    {
      !dirExists ==> file == Absent
    }

    constructor (dirExists: bool, file: ConfigFile)
      requires !dirExists ==> file == Absent
      ensures Valid()
      ensures this.dirExists == dirExists && this.file == file
    {
      this.dirExists := dirExists;
      this.file := file;
    }

    /** `saveConfig`: create the directory if needed, then write the settings. */
    method SaveConfig(c: Settings)
      modifies this
      ensures Valid()
      ensures dirExists && file == Parsed(c)
    {
      if !dirExists {
        dirExists := true;
      }
      file := Parsed(c);
    }

    /** `saveApiKey`: set the key, keep whatever model the file held. */
    method SaveApiKey(key: string)
      modifies this
      ensures Valid()
      ensures dirExists && file == WithApiKey(old(file), key)
    {
      var c := LoadConfig(file);
      SaveConfig(c.(apiKey := Some(key)));
    }

    /** `saveModel`: set the model, keep whatever key the file held. */
    method SaveModel(model: string)
      modifies this
      ensures Valid()
      ensures dirExists && file == WithModel(old(file), model)
    {
      var c := LoadConfig(file);
      SaveConfig(c.(model := Some(model)));
    }

    /**
     * `promptForApiKey` given the line typed: a blank answer ends the program
     * (exit status 1) without writing anything; any other answer is saved
     * trimmed and returned.
     */
    method PromptForApiKey(answer: string) returns (key: Option<string>)
      requires Valid()
      modifies this
      ensures Valid()
      ensures key.None? <==> Trim(answer) == ""
      ensures key.None? ==> dirExists == old(dirExists) && file == old(file)
      ensures key.Some? ==> key.value == Trim(answer) && file == WithApiKey(old(file), key.value)
    {
      var typed := Trim(answer);
      if typed == "" {
        key := None;
      } else {
        SaveApiKey(typed);
        key := Some(typed);
      }
    }

    /** `promptForModel` given the lines typed: the chosen model is saved before it is returned. */
    method PromptForModel(choiceAnswer: string, customAnswer: string) returns (model: string)
      modifies this
      ensures Valid()
      ensures model == ChosenModel(choiceAnswer, customAnswer) && model != ""
      ensures file == WithModel(old(file), model)
    {
      var choice := ParseInt(Trim(choiceAnswer));
      if choice.Some? && 1 <= choice.value <= 3 {
        model := FreeModels[choice.value - 1].id;
      } else if choice == Some(4) {
        model := Trim(customAnswer);
        if model == "" {
          model := DefaultModel;
        }
      } else {
        model := DefaultModel;
      }
      SaveModel(model);
    }
  }
}

/** The two hard-coded sample catalogs, transcribed as data: `RootAssets` is the
    root copy's SAMPLE_ASSETS, `DashboardAssets` the `src/` copy's. */
module Catalog {
  import opened Types

  const RootAssets: seq<Asset> := [
    Asset("1", "Archive Astronaut",
      "https://modelviewer.dev/shared-assets/models/Astronaut.glb",
      Some("https://modelviewer.dev/shared-assets/models/Astronaut.glb"),
      "2024-05-12", Object, None, None,
      Some("A classic 3D astronaut model used for neural testing and fidelity calibration."),
      "45k", "2.5MB", None, None, None),
    Asset("2", "Vintage Chair Scan",
      "https://modelviewer.dev/shared-assets/models/Chair.glb",
      Some("https://modelviewer.dev/shared-assets/models/Chair.glb"),
      "2024-05-10", Object, None, None,
      Some("Industrial chair reconstruction captured using high-density photogrammetry."),
      "12k", "1.2MB", None, None, None),
    Asset("3", "Heritage Suit",
      "https://modelviewer.dev/shared-assets/models/NeilArmstrong.glb",
      Some("https://modelviewer.dev/shared-assets/models/NeilArmstrong.glb"),
      "2024-05-08", Art, None, None,
      Some("Detailed scan of a historical space suit, preserving every fiber in 3D space."),
      "89k", "15.4MB", None, None, None),
    Asset("4", "Mechanical Gear",
      "https://images.unsplash.com/photo-1581091226825-a6a2a5aee158?auto=format&fit=crop&q=80&w=800",
      None,
      "2024-05-01", Object, None, None,
      Some("Industrial part for prototype testing."),
      "15k", "2.1MB", None, None, None),
    Asset("5", "Forest Moss Patch",
      "https://images.unsplash.com/photo-1542273917363-3b1817f69a2d?auto=format&fit=crop&q=80&w=800",
      None,
      "2024-04-28", Environment, None, None,
      Some("Micro-structure of forest moss after rain, captured for architectural visualization."),
      "2.4M", "112.5MB", None, None, None)
  ]

  const AstronautModel := "https://modelviewer.dev/shared-assets/models/Astronaut.glb"

  const DashboardAssets: seq<Asset> := [
    Asset("1", "Archive Astronaut", AstronautModel, Some(AstronautModel),
      "2024-05-12", Object,
      Some(["Space", "NASA", "Suit"]),
      Some(Author("Devon Lane", "https://i.pravatar.cc/150?u=devon")),
      Some("A classic 3D astronaut model used for neural testing and fidelity calibration."),
      "45k", "2.5MB", None, Some(true),
      Some([
        AssetVersion("2024-01-01", AstronautModel, "Alpha Capture"),
        AssetVersion("2024-03-15", AstronautModel, "Fidelity Pass"),
        AssetVersion("2024-05-12", AstronautModel, "Final Archive")
      ])),
    Asset("2", "Heritage Suit",
      "https://modelviewer.dev/shared-assets/models/NeilArmstrong.glb",
      Some("https://modelviewer.dev/shared-assets/models/NeilArmstrong.glb"),
      "2024-05-08", Art,
      Some(["History", "Museum", "Textile"]),
      Some(Author("Theresa Webb", "https://i.pravatar.cc/150?u=theresa")),
      Some("Detailed scan of a historical space suit, preserving every fiber in 3D space."),
      "89k", "15.4MB", None, Some(true), None),
    Asset("3", "Battle Damaged Helmet",
      "https://modelviewer.dev/shared-assets/models/DamagedHelmet.glb",
      Some("https://modelviewer.dev/shared-assets/models/DamagedHelmet.glb"),
      "2024-05-10", Object,
      Some(["Sci-Fi", "Metal", "Damage"]),
      Some(Author("Cameron Williamson", "https://i.pravatar.cc/150?u=cameron")),
      Some("Industrial helmet reconstruction captured using high-density photogrammetry."),
      "12k", "1.2MB", None, None, None),
    Asset("4", "Expressive Bot",
      "https://modelviewer.dev/shared-assets/models/RobotExpressive.glb",
      Some("https://modelviewer.dev/shared-assets/models/RobotExpressive.glb"),
      "2024-05-01", Object,
      Some(["Robotics", "A.I.", "Mech"]),
      Some(Author("Guy Hawkins", "https://i.pravatar.cc/150?u=guy")),
      Some("Next-gen robotics prototype with expressive capabilities."),
      "15k", "2.1MB", None, None, None),
    Asset("5", "Equine Study",
      "https://modelviewer.dev/shared-assets/models/Horse.glb",
      Some("https://modelviewer.dev/shared-assets/models/Horse.glb"),
      "2024-04-28", Environment,
      Some(["Nature", "Mammal", "Organic"]),
      Some(Author("Jenny Wilson", "https://i.pravatar.cc/150?u=jenny")),
      Some("Anatomical study of equine muscle structure."),
      "2.4M", "112.5MB", None, None, None)
  ]
}

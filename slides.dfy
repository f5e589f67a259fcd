/**
 The fixed table of product mock-ups the carousel cycles through
 (src/components/sections/ProductShowcase.tsx, `mockups`).
 Only the shape of the table matters to the controller: how many entries it has
 and that every `id` is distinct, since the `id` is used as the React `key` of the
 animated slide and of each dot button.
 */
module Slides {
  import opened Wrappers

  /** One display item. The controller never interprets the payload. */
  datatype Slide = Slide(
    id: string,
    title: string,
    description: string,
    image: string,
    secondaryImage: Option<string>,
    features: seq<string>)

  /** The four mock-ups, in display order. */
  function Mockups(): (r: seq<Slide>)
    ensures |r| == 4
    ensures forall i, j :: 0 <= i < j < |r| ==> r[i].id != r[j].id
    ensures forall i :: 0 <= i < |r| ==> |r[i].features| == 3
  {
    [ Slide("dashboard",
            "Dashboard del Docente",
            "Vista completa del progreso de la clase con métricas en tiempo real",
            "/assets/blackBoardView.jpeg",
            Some("/assets/gamesView.jpeg"),
            ["Analíticas en tiempo real", "Gestión de estudiantes", "Configuración de lecciones"]),
      Slide("game-interface",
            "Interfaz de Juego",
            "Experiencia inmersiva para estudiantes con mecánicas intuitivas",
            "/assets/mainView.jpeg",
            Some("/assets/gameView.jpeg"),
            ["Controles táctiles", "Feedback inmediato", "Progreso visual"]),
      Slide("analytics",
            "Analíticas Detalladas",
            "Reportes comprensivos sobre el desempeño y áreas de mejora",
            "/assets/feedBackView.jpeg",
            Some("/assets/blackBoardView.jpeg"),
            ["Reportes automáticos", "Insights pedagógicos", "Seguimiento longitudinal"]),
      Slide("lesson-creator",
            "Creador de Lecciones IA",
            "Herramienta inteligente que convierte PDFs en experiencias gamificadas",
            "/assets/iaView.jpg",
            None,
            ["Procesamiento IA", "Adaptación automática", "Múltiples formatos"])
    ]
  }

  /** The number of slides, `mockups.length`. */
  function SlideCount(): (n: nat)
    ensures n == |Mockups()| && n == 4
  {
    |Mockups()|
  }
}
